/** References to other Secrets, `ref+k8s://namespace/name#key`, as
    controllers/valssecret_controller.go reads them with Go's regular expressions. */
module RefPattern {
  import opened Wrappers

  const PREFIX: string := "ref+k8s://"

  datatype Ref = Ref(namespace: string, name: string, key: string)

  /** The parts of the pattern: a literal text, or a group `(\S+)`. */
  datatype Item = Lit(text: string) | NonSpaces

  const KEY_PART: seq<Item> := [Lit("#"), NonSpaces]
  const NAME_PART: seq<Item> := [Lit("/"), NonSpaces] + KEY_PART
  const PATTERN: seq<Item> := [Lit(PREFIX), NonSpaces] + NAME_PART

  predicate IsSpace(c: char) {
    c == ' ' || c == '\t' || c == '\n' || c == '\r' || c == 12 as char
  }

  predicate IsWord(s: string) {
    s != "" && forall i :: 0 <= i < |s| ==> !IsSpace(s[i])
  }

  /** Where the characters from `pos` on that are not white space end. */
  function WordEnd(s: string, pos: nat): (end: nat)
    requires pos <= |s|
    ensures pos <= end <= |s|
    ensures forall i :: pos <= i < end ==> !IsSpace(s[i])
    ensures end == |s| || IsSpace(s[end])
    decreases |s| - pos
  {
    if pos == |s| || IsSpace(s[pos]) then pos else WordEnd(s, pos + 1)
  }

  predicate LitAt(text: string, s: string, pos: nat) {
    pos + |text| <= |s| && s[pos..pos + |text|] == text
  }

  /** Leftmost-first matching at a position: every group takes as much as it can,
      and gives back only when the rest of the pattern asks for it. */
  function Run(items: seq<Item>, s: string, pos: nat): Option<seq<string>>
    requires pos <= |s|
    decreases |items|, 0, 0
  {
    if items == [] then
      Some([])
    else match items[0]
      case Lit(text) => if LitAt(text, s, pos) then Run(items[1..], s, pos + |text|) else None
      case NonSpaces => Longest(items[1..], s, pos, WordEnd(s, pos))
  }

  function Longest(rest: seq<Item>, s: string, pos: nat, end: nat): Option<seq<string>>
    requires pos <= end <= |s|
    decreases |rest|, 1, end
  {
    if end == pos then
      None
    else
      var groups := Run(rest, s, end);
      if groups.Some? then Some([s[pos..end]] + groups.value) else Longest(rest, s, pos, end - 1)
  }

  /** The leftmost position, from `from` on, at which the pattern matches. */
  function Search(s: string, from: nat): Option<(nat, seq<string>)>
    requires from <= |s|
    decreases |s| - from
  {
    var groups := Run(PATTERN, s, from);
    if groups.Some? then Some((from, groups.value))
    else if from == |s| then None
    else Search(s, from + 1)
  }

  /** `FindAllGroups` with `K8sSecretFound`. */
  function Find(s: string): Option<Ref> {
    var found := Search(s, 0);
    if found.Some? && |found.value.1| == 3 then
      Some(Ref(found.value.1[0], found.value.1[1], found.value.1[2]))
    else
      None
  }

  function Print(ref: Ref): string {
    PREFIX + ref.namespace + "/" + ref.name + "#" + ref.key
  }

  predicate WordRef(ref: Ref) {
    IsWord(ref.namespace) && IsWord(ref.name) && IsWord(ref.key)
  }

  function Slots(items: seq<Item>): nat {
    if items == [] then 0 else (if items[0].NonSpaces? then 1 else 0) + Slots(items[1..])
  }

  /** The text that a match with these groups covers. */
  function Render(items: seq<Item>, groups: seq<string>): string
    requires |groups| == Slots(items)
  {
    if items == [] then ""
    else match items[0]
      case Lit(text) => text + Render(items[1..], groups)
      case NonSpaces => groups[0] + Render(items[1..], groups[1..])
  }

  predicate Words(groups: seq<string>) {
    forall i :: 0 <= i < |groups| ==> IsWord(groups[i])
  }

  lemma LitAtConcat(a: string, b: string, s: string, pos: nat)
    ensures LitAt(a + b, s, pos) <==> LitAt(a, s, pos) && LitAt(b, s, pos + |a|)
  {
    if pos + |a + b| <= |s| {
      assert s[pos..pos + |a + b|] == s[pos..pos + |a|] + s[pos + |a|..pos + |a + b|];
      if s[pos..pos + |a + b|] == a + b {
        assert s[pos..pos + |a|] == (a + b)[..|a|];
        assert s[pos + |a|..pos + |a + b|] == (a + b)[|a|..];
      }
    }
  }

  lemma {:induction false} WordReaches(s: string, pos: nat, upTo: nat)
    requires pos <= upTo <= |s|
    requires forall i :: pos <= i < upTo ==> !IsSpace(s[i])
    ensures upTo <= WordEnd(s, pos)
    decreases upTo - pos
  {
    if pos < upTo {
      WordReaches(s, pos + 1, upTo);
    }
  }

  /** A group ends at the last place from which the rest still matches. */
  lemma {:induction false} LongestEnds(rest: seq<Item>, s: string, pos: nat, end: nat, at: nat)
    requires pos < at <= end <= |s|
    requires Run(rest, s, at).Some?
    ensures Longest(rest, s, pos, end).Some?
    ensures |Longest(rest, s, pos, end).value| > 0
    ensures |Longest(rest, s, pos, end).value[0]| >= at - pos
    ensures (forall j :: at < j <= end ==> Run(rest, s, j).None?) ==>
      Longest(rest, s, pos, end) == Some([s[pos..at]] + Run(rest, s, at).value)
    decreases end
  {
    if Run(rest, s, end).None? {
      LongestEnds(rest, s, pos, end - 1, at);
    }
  }

  /** A match covers exactly what its groups and the literals spell. */
  lemma {:induction false} RunSound(items: seq<Item>, s: string, pos: nat)
    requires pos <= |s|
    ensures var r := Run(items, s, pos);
      r.Some? ==> |r.value| == Slots(items) && Words(r.value) && LitAt(Render(items, r.value), s, pos)
    decreases |items|, 0, 0
  {
    if items != [] && Run(items, s, pos).Some? {
      match items[0]
      case Lit(text) =>
        RunSound(items[1..], s, pos + |text|);
        LitAtConcat(text, Render(items[1..], Run(items, s, pos).value), s, pos);
      case NonSpaces =>
        LongestSound(items[1..], s, pos, WordEnd(s, pos));
        var groups := Run(items, s, pos).value;
        LitAtConcat(groups[0], Render(items[1..], groups[1..]), s, pos);
    }
  }

  lemma {:induction false} LongestSound(rest: seq<Item>, s: string, pos: nat, end: nat)
    requires pos <= end <= |s|
    requires forall i :: pos <= i < end ==> !IsSpace(s[i])
    ensures var r := Longest(rest, s, pos, end);
      r.Some? ==>
        && |r.value| == 1 + Slots(rest)
        && Words(r.value)
        && LitAt(r.value[0], s, pos)
        && LitAt(Render(rest, r.value[1..]), s, pos + |r.value[0]|)
    decreases |rest|, 1, end
  {
    if end != pos {
      if Run(rest, s, end).Some? {
        RunSound(rest, s, end);
        var groups := Run(rest, s, end).value;
        assert ([s[pos..end]] + groups)[1..] == groups;
      } else {
        LongestSound(rest, s, pos, end - 1);
      }
    }
  }

  /** Whatever text the pattern could cover with words as groups, it matches. */
  lemma {:induction false} RunComplete(items: seq<Item>, s: string, pos: nat, groups: seq<string>)
    requires pos <= |s|
    requires |groups| == Slots(items) && Words(groups)
    requires LitAt(Render(items, groups), s, pos)
    ensures Run(items, s, pos).Some?
  {
    if items != [] {
      match items[0]
      case Lit(text) =>
        LitAtConcat(text, Render(items[1..], groups), s, pos);
        RunComplete(items[1..], s, pos + |text|, groups);
      case NonSpaces =>
        var at := pos + |groups[0]|;
        LitAtConcat(groups[0], Render(items[1..], groups[1..]), s, pos);
        assert forall i :: pos <= i < at ==> s[i] == groups[0][i - pos];
        WordReaches(s, pos, at);
        RunComplete(items[1..], s, at, groups[1..]);
        LongestEnds(items[1..], s, pos, WordEnd(s, pos), at);
    }
  }

  lemma PatternTails()
    ensures KEY_PART[1..] == [NonSpaces] && KEY_PART[1..][1..] == []
    ensures NAME_PART[1..] == [NonSpaces] + KEY_PART && NAME_PART[1..][1..] == KEY_PART
    ensures PATTERN[1..] == [NonSpaces] + NAME_PART && PATTERN[1..][1..] == NAME_PART
  {
  }

  lemma RenderPattern(groups: seq<string>)
    requires |groups| == 3
    ensures Slots(PATTERN) == 3
    ensures Render(PATTERN, groups) == Print(Ref(groups[0], groups[1], groups[2]))
  {
    PatternTails();
    assert Slots(KEY_PART[1..]) == 1;
    assert Slots(NAME_PART[1..]) == 2;
    assert Slots(PATTERN[1..]) == 3;
    var key, name := groups[2..], groups[1..];
    assert name[1..] == key;
    assert Render(KEY_PART[1..], key) == key[0] + Render([], key[1..]);
    assert Render(KEY_PART, key) == "#" + groups[2];
    assert Render(NAME_PART[1..], name) == groups[1] + Render(KEY_PART, key);
    assert Render(NAME_PART, name) == "/" + groups[1] + "#" + groups[2];
    assert Render(PATTERN[1..], groups) == groups[0] + Render(NAME_PART, name);
  }

  predicate RefAt(ref: Ref, s: string, pos: nat) {
    WordRef(ref) && LitAt(Print(ref), s, pos)
  }

  lemma MatchesWhereARefIs(s: string, pos: nat)
    requires pos <= |s|
    ensures var r := Run(PATTERN, s, pos);
      && (r.Some? ==> |r.value| == 3 && RefAt(Ref(r.value[0], r.value[1], r.value[2]), s, pos))
      && (r.None? ==> forall ref :: !RefAt(ref, s, pos))
  {
    RenderPattern(["", "", ""]);
    RunSound(PATTERN, s, pos);
    if Run(PATTERN, s, pos).Some? {
      RenderPattern(Run(PATTERN, s, pos).value);
    } else {
      forall ref | RefAt(ref, s, pos)
        ensures false
      {
        var groups := [ref.namespace, ref.name, ref.key];
        RenderPattern(groups);
        RunComplete(PATTERN, s, pos, groups);
      }
    }
  }

  lemma {:induction false} SearchExact(s: string, from: nat)
    requires from <= |s|
    ensures var r := Search(s, from);
      && (r.Some? ==>
            && from <= r.value.0 <= |s| && |r.value.1| == 3
            && RefAt(Ref(r.value.1[0], r.value.1[1], r.value.1[2]), s, r.value.0)
            && forall ref, j | from <= j < r.value.0 :: !RefAt(ref, s, j))
      && (r.None? ==> forall ref, j | from <= j :: !RefAt(ref, s, j))
    decreases |s| - from
  {
    MatchesWhereARefIs(s, from);
    if Run(PATTERN, s, from).None? && from < |s| {
      SearchExact(s, from + 1);
    }
  }

  /** A reference is found if and only if the text holds one somewhere; the text from
      its start on is the parts with their separators, and no reference starts before. */
  lemma FindExact(s: string)
    ensures Find(s).Some? <==> exists ref, pos :: RefAt(ref, s, pos)
    ensures Find(s).Some? ==> exists pos: nat ::
      && RefAt(Find(s).value, s, pos)
      && forall ref, j | 0 <= j < pos :: !RefAt(ref, s, j)
  {
    SearchExact(s, 0);
    if Find(s).Some? {
      var pos := Search(s, 0).value.0;
      assert RefAt(Find(s).value, s, pos);
    }
  }

  /** The separators that greedy matching would prefer to the printed ones. */
  predicate Ambiguous(ref: Ref)
    requires WordRef(ref)
  {
    || '/' in ref.name[..|ref.name| - 1]
    || '#' in ref.key[..|ref.key| - 1]
  }

  /** A `#` matches with the key behind it wherever a character follows that is not
      white space. */
  lemma KeyMatches(s: string, pos: nat)
    requires pos <= |s|
    ensures Run(KEY_PART, s, pos).Some? <==> pos + 1 < |s| && s[pos] == '#' && !IsSpace(s[pos + 1])
    ensures Run(KEY_PART, s, pos).Some? ==>
      Run(KEY_PART, s, pos) == Some([s[pos + 1..WordEnd(s, pos + 1)]])
  {
    PatternTails();
    if LitAt("#", s, pos) {
      assert s[pos..pos + 1][0] == s[pos];
      var end := WordEnd(s, pos + 1);
      assert Run(KEY_PART[1..], s, pos + 1) == Longest([], s, pos + 1, end);
      assert Run([], s, end) == Some([]);
      assert [s[pos + 1..end]] + [] == [s[pos + 1..end]];
    } else if pos < |s| {
      assert s[pos..pos + 1] == [s[pos]];
    }
  }

  lemma NameMatches(s: string, pos: nat)
    requires pos <= |s|
    ensures Run(NAME_PART, s, pos) ==
      if pos < |s| && s[pos] == '/' then Longest(KEY_PART, s, pos + 1, WordEnd(s, pos + 1)) else None
  {
    PatternTails();
    if pos < |s| {
      assert s[pos..pos + 1] == [s[pos]];
    }
  }

  lemma {:induction false} LongestShape(rest: seq<Item>, s: string, pos: nat, end: nat) returns (at: nat)
    requires pos <= end <= |s|
    requires Longest(rest, s, pos, end).Some?
    ensures pos < at <= end
    ensures Run(rest, s, at).Some?
    ensures Longest(rest, s, pos, end).value == [s[pos..at]] + Run(rest, s, at).value
  {
    at := end;
    if Run(rest, s, end).None? {
      at := LongestShape(rest, s, pos, end - 1);
    }
  }

  function SlashAt(ref: Ref): nat { |PREFIX| + |ref.namespace| }

  function HashAt(ref: Ref): nat { SlashAt(ref) + 1 + |ref.name| }

  /** Where the parts are in a printed reference. */
  predicate Layout(ref: Ref, s: string) {
    && |s| == HashAt(ref) + 1 + |ref.key|
    && s[SlashAt(ref)] == '/' && s[HashAt(ref)] == '#'
    && s[|PREFIX|..SlashAt(ref)] == ref.namespace
    && s[SlashAt(ref) + 1..HashAt(ref)] == ref.name
    && s[HashAt(ref) + 1..] == ref.key
    && (forall i :: |PREFIX| <= i < |s| ==> !IsSpace(s[i]))
  }

  lemma PrintLayout(ref: Ref)
    requires WordRef(ref)
    ensures Layout(ref, Print(ref))
  {
  }

  lemma WordEndsAtEnd(ref: Ref, s: string, pos: nat)
    requires Layout(ref, s) && |PREFIX| <= pos <= |s|
    ensures WordEnd(s, pos) == |s|
  {
    WordReaches(s, pos, |s|);
  }

  lemma PrintedMatches(ref: Ref)
    requires WordRef(ref)
    ensures var s := Print(ref);
      && Longest(NAME_PART, s, |PREFIX|, |s|).Some?
      && |Longest(NAME_PART, s, |PREFIX|, |s|).value| == 3
      && var g := Longest(NAME_PART, s, |PREFIX|, |s|).value;
      && Find(s) == Some(Ref(g[0], g[1], g[2]))
  {
    var s := Print(ref);
    PrintLayout(ref);
    PatternTails();
    WordEndsAtEnd(ref, s, |PREFIX|);
    assert RefAt(ref, s, 0);
    MatchesWhereARefIs(s, 0);
    assert s[0..|PREFIX|] == PREFIX;
    assert Run(PATTERN, s, 0) == Run(PATTERN[1..], s, |PREFIX|);
  }

  lemma PrintedKey(ref: Ref, s: string)
    requires Layout(ref, s) && WordRef(ref)
    ensures Run(KEY_PART, s, HashAt(ref)) == Some([ref.key])
  {
    KeyMatches(s, HashAt(ref));
    WordEndsAtEnd(ref, s, HashAt(ref) + 1);
    assert s[HashAt(ref) + 1..|s|] == ref.key;
  }

  lemma PrintedName(ref: Ref, s: string)
    requires Layout(ref, s) && WordRef(ref)
    ensures Run(NAME_PART, s, SlashAt(ref)) == Longest(KEY_PART, s, SlashAt(ref) + 1, |s|)
  {
    NameMatches(s, SlashAt(ref));
    WordEndsAtEnd(ref, s, SlashAt(ref) + 1);
  }

  /** Behind the printed `#` no key matches. */
  lemma NoKeyBehind(ref: Ref, s: string, at: nat)
    requires Layout(ref, s) && WordRef(ref) && !Ambiguous(ref)
    requires HashAt(ref) < at <= |s|
    ensures Run(KEY_PART, s, at).None?
  {
    KeyMatches(s, at);
    if at + 1 < |s| {
      assert s[at] == s[HashAt(ref) + 1..][at - HashAt(ref) - 1];
      assert s[at] == ref.key[..|ref.key| - 1][at - HashAt(ref) - 1];
    }
  }

  /** Behind the printed `/` no name matches. */
  lemma NoNameBehind(ref: Ref, s: string, at: nat)
    requires Layout(ref, s) && WordRef(ref) && !Ambiguous(ref)
    requires SlashAt(ref) < at <= |s|
    ensures Run(NAME_PART, s, at).None?
  {
    NameMatches(s, at);
    if Run(NAME_PART, s, at).Some? {
      if at < HashAt(ref) {
        assert s[at] == s[SlashAt(ref) + 1..HashAt(ref)][at - SlashAt(ref) - 1];
        assert at == HashAt(ref) - 1;
      }
      var end := LongestShape(KEY_PART, s, at + 1, WordEnd(s, at + 1));
      NoKeyBehind(ref, s, end);
    }
  }

  /** Greedy groups, for any two rests of a pattern: the first group ends at the last
      place where the rest matches, and so does the second. */
  lemma TwoGroups(s: string, pos: nat, slash: nat, hash: nat, namePart: seq<Item>, keyPart: seq<Item>, key: string)
    requires pos < slash && slash + 1 < hash <= |s|
    requires Run(keyPart, s, hash) == Some([key])
    requires forall j | hash < j <= |s| :: Run(keyPart, s, j).None?
    requires Run(namePart, s, slash) == Longest(keyPart, s, slash + 1, |s|)
    requires forall j | slash < j <= |s| :: Run(namePart, s, j).None?
    ensures Longest(namePart, s, pos, |s|) == Some([s[pos..slash], s[slash + 1..hash], key])
  {
    LongestEnds(keyPart, s, slash + 1, |s|, hash);
    LongestEnds(namePart, s, pos, |s|, slash);
    assert [s[pos..slash]] + ([s[slash + 1..hash]] + [key]) == [s[pos..slash], s[slash + 1..hash], key];
  }

  lemma PlainReadsBack(ref: Ref, s: string)
    requires Layout(ref, s) && WordRef(ref) && !Ambiguous(ref)
    ensures Longest(NAME_PART, s, |PREFIX|, |s|) == Some([ref.namespace, ref.name, ref.key])
  {
    PrintedKey(ref, s);
    PrintedName(ref, s);
    forall j | HashAt(ref) < j <= |s| {
      NoKeyBehind(ref, s, j);
    }
    forall j | SlashAt(ref) < j <= |s| {
      NoNameBehind(ref, s, j);
    }
    TwoGroups(s, |PREFIX|, SlashAt(ref), HashAt(ref), NAME_PART, KEY_PART, ref.key);
  }

  lemma SlashMatches(ref: Ref, s: string, x: nat)
    requires Layout(ref, s) && WordRef(ref) && x < |ref.name| - 1 && ref.name[x] == '/'
    ensures Run(NAME_PART, s, SlashAt(ref) + 1 + x).Some?
  {
    var at := SlashAt(ref) + 1 + x;
    PrintedKey(ref, s);
    assert s[at] == s[SlashAt(ref) + 1..HashAt(ref)][x];
    NameMatches(s, at);
    WordEndsAtEnd(ref, s, at + 1);
    LongestEnds(KEY_PART, s, at + 1, |s|, HashAt(ref));
  }

  lemma SlashReadsMore(ref: Ref, s: string, at: nat, namePart: seq<Item>)
    requires Layout(ref, s) && SlashAt(ref) < at <= |s|
    requires Run(namePart, s, at).Some?
    ensures Longest(namePart, s, |PREFIX|, |s|) != Some([ref.namespace, ref.name, ref.key])
  {
    LongestEnds(namePart, s, |PREFIX|, |s|, at);
  }

  /** A later place for the second group to end makes it longer. */
  lemma SecondGroupIsLonger(s: string, pos: nat, slash: nat, later: nat, namePart: seq<Item>,
      keyPart: seq<Item>, groups: seq<string>)
    requires pos < slash && slash + 1 < later <= |s|
    requires Run(namePart, s, slash) == Longest(keyPart, s, slash + 1, |s|)
    requires Run(keyPart, s, later).Some?
    requires Longest(namePart, s, pos, |s|) == Some(groups) && |groups| > 1
    ensures |groups[0]| == slash - pos ==> |groups[1]| >= later - slash - 1
  {
    var end := LongestShape(namePart, s, pos, |s|);
    LongestEnds(keyPart, s, slash + 1, |s|, later);
  }

  lemma HashMatches(ref: Ref, s: string, x: nat)
    requires Layout(ref, s) && WordRef(ref) && x < |ref.key| - 1 && ref.key[x] == '#'
    ensures Run(KEY_PART, s, HashAt(ref) + 1 + x).Some?
  {
    var at := HashAt(ref) + 1 + x;
    assert s[at] == s[HashAt(ref) + 1..][x] && s[at + 1] == s[HashAt(ref) + 1..][x + 1];
    KeyMatches(s, at);
  }

  lemma HashReadsMore(ref: Ref, s: string, at: nat, namePart: seq<Item>, keyPart: seq<Item>)
    requires Layout(ref, s) && ref.namespace != "" && HashAt(ref) < at <= |s|
    requires Run(namePart, s, SlashAt(ref)) == Longest(keyPart, s, SlashAt(ref) + 1, |s|)
    requires Run(keyPart, s, at).Some?
    ensures Longest(namePart, s, |PREFIX|, |s|) != Some([ref.namespace, ref.name, ref.key])
  {
    var groups := [ref.namespace, ref.name, ref.key];
    if Longest(namePart, s, |PREFIX|, |s|) == Some(groups) {
      SecondGroupIsLonger(s, |PREFIX|, SlashAt(ref), at, namePart, keyPart, groups);
    }
  }

  lemma SlashBreaks(ref: Ref, s: string, x: nat)
    requires Layout(ref, s) && WordRef(ref) && x < |ref.name| - 1 && ref.name[x] == '/'
    ensures Longest(NAME_PART, s, |PREFIX|, |s|) != Some([ref.namespace, ref.name, ref.key])
  {
    SlashMatches(ref, s, x);
    SlashReadsMore(ref, s, SlashAt(ref) + 1 + x, NAME_PART);
  }

  lemma HashBreaks(ref: Ref, s: string, x: nat)
    requires Layout(ref, s) && WordRef(ref) && x < |ref.key| - 1 && ref.key[x] == '#'
    ensures Longest(NAME_PART, s, |PREFIX|, |s|) != Some([ref.namespace, ref.name, ref.key])
  {
    HashMatches(ref, s, x);
    PrintedName(ref, s);
    HashReadsMore(ref, s, HashAt(ref) + 1 + x, NAME_PART, KEY_PART);
  }

  lemma GreedyReadsBack(ref: Ref, s: string)
    requires Layout(ref, s) && WordRef(ref)
    ensures Longest(NAME_PART, s, |PREFIX|, |s|) == Some([ref.namespace, ref.name, ref.key]) <==> !Ambiguous(ref)
  {
    if !Ambiguous(ref) {
      PlainReadsBack(ref, s);
    } else if x :| 0 <= x < |ref.name| - 1 && ref.name[x] == '/' {
      SlashBreaks(ref, s, x);
    } else {
      var x :| 0 <= x < |ref.key| - 1 && ref.key[x] == '#';
      HashBreaks(ref, s, x);
    }
  }

  /** A printed reference is read back as it was, exactly when neither the name nor
      the key holds its separator before its last character. */
  lemma PrintFind(ref: Ref)
    requires WordRef(ref)
    ensures Find(Print(ref)) == Some(ref) <==> !Ambiguous(ref)
  {
    PrintLayout(ref);
    PrintedMatches(ref);
    GreedyReadsBack(ref, Print(ref));
    var groups := Longest(NAME_PART, Print(ref), |PREFIX|, |Print(ref)|).value;
    assert groups == [groups[0], groups[1], groups[2]];
  }

  lemma ReferenceInFull()
    ensures Find("ref+k8s://ns/name#key") == Some(Ref("ns", "name", "key"))
  {
    var ref := Ref("ns", "name", "key");
    assert Print(ref) == "ref+k8s://ns/name#key";
    assert '/' !in ref.name[..|ref.name| - 1] && '#' !in ref.key[..|ref.key| - 1];
    PrintFind(ref);
  }
}
