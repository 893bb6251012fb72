/** utils/utils.go. Go ranges over a map in no particular order: the loops below take
    the keys one by one in whatever order they come. */
module Utils {
  import opened Wrappers

  /** Parses and executes a template under a name, with the values it may use;
      `None` when either fails. */
  type Engine = (string, string, map<string, string>) -> Option<string>

  type Digest = string -> string

  /** What is left of a map when some keys are not looked at. */
  function Seen<K, V>(m: map<K, V>, ignored: set<K>): map<K, V> {
    map k | k in m && k !in ignored :: m[k]
  }

  lemma SeenMore<V>(m: map<string, V>, unseen: set<string>, k: string)
    requires k in unseen
    ensures Seen(m, unseen - {k}) == if k in m then Seen(m, unseen)[k := m[k]] else Seen(m, unseen)
  {
  }

  /** True exactly when the maps agree on all keys that are not ignored. Being an
      equation between the two, this is an equivalence for every list of keys. */
  method StringMapsMatch<K(==)>(m1: map<K, string>, m2: map<K, string>, ignoreKeys: seq<K>) returns (same: bool)
    ensures same <==> Seen(m1, set k | k in ignoreKeys) == Seen(m2, set k | k in ignoreKeys)
    ensures same <==> forall k | k !in ignoreKeys :: (k in m1 <==> k in m2) && (k in m1 ==> m1[k] == m2[k])
  {
    if |m1| == 0 && |m2| == 0 {
      return true;
    }
    var ignored := set k | k in ignoreKeys;
    var oneWay := AllFound(m1, m2, ignored);
    var otherWay := AllFound(m2, m1, ignored);
    ghost var s1, s2 := Seen(m1, ignored), Seen(m2, ignored);
    assert forall k :: k in s1 <==> k in m1 && k !in ignored;
    assert forall k :: k in s2 <==> k in m2 && k !in ignored;
    return oneWay && otherWay;
  }

  method AllFound<K(==)>(m1: map<K, string>, m2: map<K, string>, ignored: set<K>) returns (found: bool)
    ensures found <==> forall k | k in m1 && k !in ignored :: k in m2 && m2[k] == m1[k]
  {
    var keys := m1.Keys;
    while keys != {}
      invariant keys <= m1.Keys
      invariant forall k | k in m1 && k !in keys && k !in ignored :: k in m2 && m2[k] == m1[k]
      decreases |keys|
    {
      var k :| k in keys;
      keys := keys - {k};
      if k in ignored {
        continue;
      }
      if k !in m2 || m2[k] != m1[k] {
        return false;
      }
    }
    return true;
  }

  /** The loop looks only one way; the equal number of keys makes up for the other. */
  method ByteMapsMatch<B(==)>(m1: map<string, seq<B>>, m2: map<string, seq<B>>) returns (same: bool)
    ensures same <==> m1 == m2
  {
    if |m1| != |m2| {
      return false;
    }
    var keys := m1.Keys;
    while keys != {}
      invariant keys <= m1.Keys
      invariant forall k | k in m1 && k !in keys :: k in m2 && m2[k] == m1[k]
      decreases |keys|
    {
      var k :| k in keys;
      keys := keys - {k};
      if k !in m2 || |m2[k]| != |m1[k]| {
        return false;
      }
      for i := 0 to |m1[k]|
        invariant m2[k][..i] == m1[k][..i]
      {
        if m2[k][i] != m1[k][i] {
          return false;
        }
      }
      assert m1[k] == m1[k][..|m1[k]|] == m2[k][..|m1[k]|] == m2[k];
    }
    SameSize(m1.Keys, m2.Keys);
    return true;
  }

  lemma {:induction false} SameSize<K>(a: set<K>, b: set<K>)
    requires a <= b && |a| == |b|
    ensures a == b
  {
    if a != {} {
      var x :| x in a;
      SameSize(a - {x}, b - {x});
    }
  }

  /** `MergeMap`: the caller stores the result where `dst` was. */
  method MergeMap<K(==)>(dst: map<K, string>, src: map<K, string>) returns (merged: map<K, string>)
    ensures merged == dst + src
  {
    merged := dst;
    var keys := src.Keys;
    while keys != {}
      invariant keys <= src.Keys
      invariant merged.Keys == dst.Keys + (src.Keys - keys)
      invariant forall k | k in merged :: merged[k] == if k in src && k !in keys then src[k] else dst[k]
      decreases |keys|
    {
      var k :| k in keys;
      merged := merged[k := src[k]];
      keys := keys - {k};
    }
  }

  method ContainsString(slice: seq<string>, s: string) returns (found: bool)
    ensures found <==> s in slice
  {
    for i := 0 to |slice|
      invariant s !in slice[..i]
    {
      if slice[i] == s {
        return true;
      }
    }
    return false;
  }

  /** The other strings, in their order. */
  function Without(slice: seq<string>, s: string): (rest: seq<string>)
    ensures forall x :: x in rest <==> x in slice && x != s
    ensures |rest| <= |slice|
    ensures s !in slice ==> rest == slice
  {
    if slice == [] then [] else (if slice[0] == s then [] else [slice[0]]) + Without(slice[1..], s)
  }

  lemma WithoutFirst(first: string, more: seq<string>, s: string)
    ensures Without([first] + more, s) == (if first == s then [] else [first]) + Without(more, s)
  {
    assert ([first] + more)[1..] == more;
  }

  lemma Regrouped(a: seq<string>, b: seq<string>, c: seq<string>)
    ensures a + b + c == a + (b + c)
  {
  }

  lemma {:induction false} WithoutConcat(a: seq<string>, b: seq<string>, s: string)
    ensures Without(a + b, s) == Without(a, s) + Without(b, s)
  {
    if a == [] {
      assert a + b == b;
    } else {
      var first, more := [a[0]], a[1..];
      assert a == first + more;
      Regrouped(first, more, b);
      WithoutConcat(more, b, s);
      WithoutFirst(a[0], more, s);
      WithoutFirst(a[0], more + b, s);
      Regrouped(if a[0] == s then [] else first, Without(more, s), Without(b, s));
    }
  }

  method RemoveString(slice: seq<string>, s: string) returns (result: seq<string>)
    ensures result == Without(slice, s)
  {
    result := [];
    if |slice| < 1 {
      return;
    }
    for i := 0 to |slice|
      invariant result == Without(slice[..i], s)
    {
      assert slice[..i + 1] == slice[..i] + [slice[i]];
      WithoutConcat(slice[..i], [slice[i]], s);
      if slice[i] != s {
        result := result + [slice[i]];
      }
    }
    assert slice[..|slice|] == slice;
  }

  // ---- the template hash ----

  /** The order of `sort.Strings`. */
  predicate Before(a: string, b: string) {
    b != "" && (a == "" || a[0] < b[0] || (a[0] == b[0] && Before(a[1..], b[1..])))
  }

  lemma {:induction false} BeforeIsTotal(a: string, b: string)
    ensures a != b ==> (Before(a, b) <==> !Before(b, a))
    ensures !Before(a, a)
  {
    if a != "" {
      BeforeIsTotal(a[1..], if b == "" then "" else b[1..]);
      assert b != "" ==> (a == b <==> a[0] == b[0] && a[1..] == b[1..]);
    }
  }

  lemma {:induction false} BeforeIsTransitive(a: string, b: string, c: string)
    requires Before(a, b) && Before(b, c)
    ensures Before(a, c)
  {
    if a != "" && a[0] == b[0] == c[0] {
      BeforeIsTransitive(a[1..], b[1..], c[1..]);
    }
  }

  predicate Sorted(keys: seq<string>) {
    forall i, j | 0 <= i < j < |keys| :: Before(keys[i], keys[j])
  }

  function Insert(key: string, keys: seq<string>): (r: seq<string>)
    requires Sorted(keys) && key !in keys
    ensures Sorted(r)
    ensures forall k :: k in r <==> k == key || k in keys
    ensures |r| == |keys| + 1
  {
    if keys == [] then
      [key]
    else if Before(key, keys[0]) then
      assert forall j | 0 < j < |keys| :: Before(key, keys[j]) by {
        forall j | 0 < j < |keys| { BeforeIsTransitive(key, keys[0], keys[j]); }
      }
      [key] + keys
    else
      BeforeIsTotal(key, keys[0]);
      var rest := Insert(key, keys[1..]);
      assert forall k :: k in rest ==> Before(keys[0], k);
      [keys[0]] + rest
  }

  /** `sort.Strings`, for keys that are all different. */
  function Sort(keys: seq<string>): (r: seq<string>)
    requires forall i, j | 0 <= i < j < |keys| :: keys[i] != keys[j]
    ensures Sorted(r)
    ensures forall k :: k in r <==> k in keys
  {
    if keys == [] then [] else Insert(keys[0], Sort(keys[1..]))
  }

  ghost function SortedKeys(keys: set<string>): (r: seq<string>)
    ensures Sorted(r)
    ensures forall k :: k in r <==> k in keys
  {
    if keys == {} then [] else var k :| k in keys; Insert(k, SortedKeys(keys - {k}))
  }

  /** There is only one way to list the same strings in order. */
  lemma {:induction false} SortedIsUnique(a: seq<string>, b: seq<string>)
    requires Sorted(a) && Sorted(b)
    requires forall k :: k in a <==> k in b
    ensures a == b
  {
    assert |b| > 0 ==> b[0] in a;
    if a != [] {
      assert a[0] in b && b[0] in a;
      if a[0] != b[0] {
        BeforeIsTotal(a[0], b[0]);
        assert false;
      }
      forall k
        ensures k in a[1..] <==> k in b[1..]
      {
        BeforeIsTotal(a[0], k);
        assert k in a[1..] <==> k in a && k != a[0];
        assert k in b[1..] <==> k in b && k != b[0];
      }
      SortedIsUnique(a[1..], b[1..]);
    }
  }

  method SortedKeysMapString(m: map<string, string>) returns (keys: seq<string>)
    ensures keys == SortedKeys(m.Keys)
  {
    keys := [];
    var left := m.Keys;
    while left != {}
      invariant left <= m.Keys
      invariant forall k :: k in keys <==> k in m.Keys - left
      invariant forall i, j | 0 <= i < j < |keys| :: keys[i] != keys[j]
      decreases |left|
    {
      var k :| k in left;
      assert k !in keys;
      keys := keys + [k];
      left := left - {k};
    }
    keys := Sort(keys);
    SortedIsUnique(keys, SortedKeys(m.Keys));
  }

  /** Every key followed by its value. */
  function Listed(keys: seq<string>, m: map<string, string>): string
    requires forall k :: k in keys ==> k in m
  {
    if keys == [] then "" else Listed(keys[..|keys| - 1], m) + keys[|keys| - 1] + m[keys[|keys| - 1]]
  }

  ghost function HashInput(m: map<string, string>): string {
    Listed(SortedKeys(m.Keys), m)
  }

  lemma ListedStep(keys: seq<string>, m: map<string, string>, i: nat)
    requires i < |keys| && forall k :: k in keys ==> k in m
    ensures Listed(keys[..i + 1], m) == Listed(keys[..i], m) + keys[i] + m[keys[i]]
  {
    assert keys[..i + 1][..i] == keys[..i];
  }

  method SecretHashString(digest: Digest, m: map<string, string>) returns (hash: string)
    ensures hash == digest(HashInput(m))
  {
    var str := "";
    var keys := SortedKeysMapString(m);
    for i := 0 to |keys|
      invariant str == Listed(keys[..i], m)
    {
      ListedStep(keys, m, i);
      str := str + keys[i] + m[keys[i]];
    }
    assert keys[..|keys|] == keys;
    return digest(str);
  }

  lemma {:induction false} ListedChange(keys: seq<string>, m: map<string, string>, k: string, v: string)
    requires Sorted(keys) && forall x :: x in keys ==> x in m
    requires k in m && v != m[k]
    ensures Listed(keys, m) == Listed(keys, m[k := v]) <==> k !in keys
  {
    if keys != [] {
      var front, last := keys[..|keys| - 1], keys[|keys| - 1];
      var before, after := Listed(front, m), Listed(front, m[k := v]);
      ListedChange(front, m, k, v);
      assert keys == front + [last];
      if last == k {
        assert k !in front by { BeforeIsTotal(k, k); }
        SameHead(before + k, m[k], v);
      } else {
        var tail := last + m[last];
        SameTail(before, after, tail);
        assert (before + last) + m[last] == before + tail;
        assert (after + last) + m[last] == after + tail;
      }
    }
  }

  lemma SameHead(head: string, a: string, b: string)
    ensures head + a == head + b <==> a == b
  {
    assert (head + a)[|head|..] == a && (head + b)[|head|..] == b;
  }

  lemma SameTail(a: string, b: string, tail: string)
    ensures a + tail == b + tail <==> a == b
  {
    if a + tail == b + tail {
      assert |a| == |b|;
      assert a == (a + tail)[..|a|] && b == (b + tail)[..|a|];
    }
  }

  /** A change to the value of one key always shows in what is hashed. */
  lemma OneValueShows(m: map<string, string>, k: string, v: string)
    requires k in m && v != m[k]
    ensures HashInput(m[k := v]) != HashInput(m)
  {
    assert m[k := v].Keys == m.Keys;
    ListedChange(SortedKeys(m.Keys), m, k, v);
  }

  lemma {:induction false} ListedAgrees(keys: seq<string>, m: map<string, string>, n: map<string, string>)
    requires forall k | k in keys :: k in m && k in n && m[k] == n[k]
    ensures Listed(keys, m) == Listed(keys, n)
  {
    if keys != [] {
      ListedAgrees(keys[..|keys| - 1], m, n);
    }
  }

  lemma {:induction false} ListedConcat(a: seq<string>, b: seq<string>, m: map<string, string>)
    requires forall k | k in a || k in b :: k in m
    ensures Listed(a + b, m) == Listed(a, m) + Listed(b, m)
  {
    if b == [] {
      assert a + b == a;
    } else {
      assert (a + b)[..|a + b| - 1] == a + b[..|b| - 1];
      ListedConcat(a, b[..|b| - 1], m);
    }
  }

  lemma {:induction false} ListedInsert(key: string, keys: seq<string>, m: map<string, string>)
    requires Sorted(keys) && key !in keys && key in m && forall k | k in keys :: k in m
    ensures |Listed(Insert(key, keys), m)| == |Listed(keys, m)| + |key| + |m[key]|
    ensures key == "" ==> Listed(Insert(key, keys), m) == m[key] + Listed(keys, m)
  {
    if keys == [] || Before(key, keys[0]) {
      assert Insert(key, keys) == [key] + keys;
      ListedFirst(key, keys, m);
    } else {
      var rest := keys[1..];
      ListedInsert(key, rest, m);
      ListedFirst(keys[0], rest, m);
      ListedFirst(keys[0], Insert(key, rest), m);
      assert keys == [keys[0]] + rest && Insert(key, keys) == [keys[0]] + Insert(key, rest);
    }
  }

  lemma ListedFirst(key: string, keys: seq<string>, m: map<string, string>)
    requires key in m && forall k | k in keys :: k in m
    ensures Listed([key] + keys, m) == key + m[key] + Listed(keys, m)
  {
    ListedConcat([key], keys, m);
    assert Listed([key], m) == Listed([], m) + key + m[key];
  }

  /** One more key shows in what is hashed unless both the key and its value are empty. */
  lemma OneKeyShows(m: map<string, string>, k: string, v: string)
    requires k !in m
    ensures HashInput(m[k := v]) != HashInput(m) <==> k != "" || v != ""
  {
    var more := m[k := v];
    var keys := SortedKeys(m.Keys);
    SortedIsUnique(SortedKeys(more.Keys), Insert(k, keys));
    ListedAgrees(keys, m, more);
    ListedInsert(k, keys, more);
  }

  /** Where two maps have the same keys with values of the same lengths, what is hashed is
      the same only if the maps are. */
  lemma SameShapeShows(m: map<string, string>, n: map<string, string>)
    requires m.Keys == n.Keys && forall k | k in m :: |m[k]| == |n[k]|
    ensures HashInput(m) == HashInput(n) <==> m == n
  {
    SameShapeListed(SortedKeys(m.Keys), m, n);
    if HashInput(m) == HashInput(n) {
      assert forall k | k in m :: k in SortedKeys(m.Keys) && m[k] == n[k];
    }
  }

  lemma {:induction false} SameShapeListed(keys: seq<string>, m: map<string, string>, n: map<string, string>)
    requires forall k | k in keys :: k in m && k in n && |m[k]| == |n[k]|
    ensures |Listed(keys, m)| == |Listed(keys, n)|
    ensures Listed(keys, m) == Listed(keys, n) <==> forall k | k in keys :: m[k] == n[k]
  {
    if keys != [] {
      var front, last := keys[..|keys| - 1], keys[|keys| - 1];
      assert keys == front + [last];
      SameShapeListed(front, m, n);
      SameParts(Listed(front, m), Listed(front, n), last, m[last], n[last]);
    }
  }

  lemma SameParts(a: string, b: string, middle: string, v: string, w: string)
    requires |a| == |b| && |v| == |w|
    ensures a + middle + v == b + middle + w <==> a == b && v == w
  {
    if a + middle + v == b + middle + w {
      assert a == (a + middle + v)[..|a|] && b == (b + middle + w)[..|a|];
      assert v == (a + middle + v)[|a| + |middle|..] && w == (b + middle + w)[|a| + |middle|..];
    }
  }

  /** A key can grow at the expense of its value without a trace: the string that is
      hashed has no separators. */
  lemma KeysAndValuesRunTogether()
    ensures HashInput(map["a" := "bc"]) == HashInput(map["ab" := "c"])
  {
    var m, n := map["a" := "bc"], map["ab" := "c"];
    SortedIsUnique(SortedKeys(m.Keys), ["a"]);
    SortedIsUnique(SortedKeys(n.Keys), ["ab"]);
    assert Listed(["a"], m) == Listed([], m) + "a" + "bc";
    assert Listed(["ab"], n) == Listed([], n) + "ab" + "c";
  }

  /** Sorted by key, every key before its value. */
  lemma HashInputInFull()
    ensures HashInput(map["b" := "2", "a" := "1"]) == "a1b2"
  {
    var m := map["b" := "2", "a" := "1"];
    SortedIsUnique(SortedKeys(m.Keys), ["a", "b"]);
    assert Listed(["a", "b"], m) == Listed(["a"], m) + "b" + "2" by {
      assert ["a", "b"][..1] == ["a"];
    }
    assert Listed(["a"], m) == Listed([], m) + "a" + "1";
  }

  const FAKE_VALUES: map<string, string> := map["username" := "fake", "password" := "fake"]

  predicate Renders(engine: Engine, m: map<string, string>, values: map<string, string>) {
    forall k | k in m :: engine(k, m[k], values).Some?
  }

  ghost function FakeHash(engine: Engine, digest: Digest, m: map<string, string>): string {
    if !Renders(engine, m, FAKE_VALUES) then ""
    else digest(HashInput(map k | k in m :: engine(k, m[k], FAKE_VALUES).value))
  }

  /** The texts are rendered with the word "fake" for the user name and the password. */
  lemma FakeHashOf(engine: Engine, digest: Digest, m: map<string, string>, texts: map<string, string>)
    requires texts.Keys == m.Keys
    requires forall k | k in m :: engine(k, m[k], map["username" := "fake", "password" := "fake"]) == Some(texts[k])
    ensures FakeHash(engine, digest, m) == digest(HashInput(texts))
  {
    assert texts == map k | k in m :: engine(k, m[k], FAKE_VALUES).value;
  }

  method CreateFakeHash(engine: Engine, digest: Digest, m: map<string, string>) returns (hash: string)
    ensures hash == FakeHash(engine, digest, m)
    ensures (forall s :: digest(s) != "") ==> (hash == "" <==> exists k :: k in m && engine(k, m[k], FAKE_VALUES).None?)
  {
    var data := map[];
    var keys := m.Keys;
    while keys != {}
      invariant keys <= m.Keys
      invariant data.Keys == m.Keys - keys
      invariant forall k | k in data :: engine(k, m[k], FAKE_VALUES) == Some(data[k])
      decreases |keys|
    {
      var k :| k in keys;
      keys := keys - {k};
      var rendered := engine(k, m[k], FAKE_VALUES);
      if rendered.None? {
        return "";
      }
      data := data[k := rendered.value];
    }
    assert data == map k | k in m :: engine(k, m[k], FAKE_VALUES).value;
    hash := SecretHashString(digest, data);
  }
}
