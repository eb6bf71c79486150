/** ASCII models of the Python string operations the catalogue scripts use:
    `str.strip`, `str.split`, `str.lower`, `str.islower`, `str.title`,
    `str.startswith` and the substring test `sub in s`. */
module Text {
  import opened Wrappers

  /** Python's `\s` and `str.isspace()` on ASCII: space, `\t \n \v \f \r`
      and the separators U+001C..U+001F. */
  predicate IsSpace(c: char) {
    c == ' ' || ('\t' <= c <= '\r') || (28 <= c as int <= 31)
  }

  predicate IsUpper(c: char) { 'A' <= c <= 'Z' }

  predicate IsLowerCase(c: char) { 'a' <= c <= 'z' }

  /** Python's "cased" characters, restricted to ASCII letters. */
  predicate IsCased(c: char) { IsUpper(c) || IsLowerCase(c) }

  function ToLower(c: char): char {
    if IsUpper(c) then (c as int + 32) as char else c
  }

  function ToUpper(c: char): char {
    if IsLowerCase(c) then (c as int - 32) as char else c
  }

  /** `s.lower()` */
  function Lower(s: string): string {
    seq(|s|, i requires 0 <= i < |s| => ToLower(s[i]))
  }

  /** `s.islower()`: some cased character, and none of them upper-case. */
  predicate IsLowerString(s: string) {
    && (exists i :: 0 <= i < |s| && IsLowerCase(s[i]))
    && (forall i :: 0 <= i < |s| ==> !IsUpper(s[i]))
  }

  /** The character `s.title()` puts at position `i`: a cased character is
      upper-cased when the character before it is not cased, lower-cased otherwise. */
  function TitleChar(s: string, i: nat): char
    requires i < |s|
  {
    if i == 0 || !IsCased(s[i - 1]) then ToUpper(s[i]) else ToLower(s[i])
  }

  /** `s.title()` */
  function Title(s: string): string {
    seq(|s|, i requires 0 <= i < |s| => TitleChar(s, i))
  }

  /** Title-casing an all-lower-case string loses nothing: lower-casing gives it back. */
  lemma TitleLowerRoundTrip(s: string)
    requires IsLowerString(s)
    ensures |Title(s)| == |s|
    ensures Lower(Title(s)) == s
  {
  }

  /** In the title-cased form of an all-lower-case string, exactly the letters
      that start a word are upper-case. */
  lemma TitleUpperAtWordStarts(s: string)
    requires IsLowerString(s)
    ensures |Title(s)| == |s|
    ensures forall i :: 0 <= i < |s| ==>
              (IsUpper(Title(s)[i]) <==> IsCased(s[i]) && (i == 0 || !IsCased(s[i - 1])))
  {
    forall i | 0 <= i < |s|
      ensures IsUpper(Title(s)[i]) <==> IsCased(s[i]) && (i == 0 || !IsCased(s[i - 1]))
    {
      assert Title(s)[i] == TitleChar(s, i);
      assert !IsUpper(s[i]);
    }
  }

  /** The title-cased form of an all-lower-case string is no longer all-lower-case:
      its first cased character has become upper-case. */
  lemma {:induction false} TitleOfLowerHasUpper(s: string)
    requires IsLowerString(s)
    ensures exists i :: 0 <= i < |Title(s)| && IsUpper(Title(s)[i])
    ensures !IsLowerString(Title(s))
  {
    var j :| 0 <= j < |s| && IsLowerCase(s[j]);
    var i := FirstCased(s, j);
    assert IsUpper(Title(s)[i]);
  }

  /** Index of the first cased character, given that position `j` is cased. */
  function FirstCased(s: string, j: nat): (i: nat)
    requires j < |s| && IsCased(s[j])
    ensures i <= j && IsCased(s[i])
    ensures forall k :: 0 <= k < i ==> !IsCased(s[k])
    decreases j
  {
    if exists k :: 0 <= k < j && IsCased(s[k]) then
      var k :| 0 <= k < j && IsCased(s[k]);
      FirstCased(s, k)
    else j
  }

  predicate StartsWith(s: string, prefix: string) {
    |prefix| <= |s| && s[..|prefix|] == prefix
  }

  /** `sub` occurs in `s` starting at index `k`. */
  predicate OccursAt(s: string, sub: string, k: int) {
    0 <= k && k + |sub| <= |s| && s[k..k + |sub|] == sub
  }

  /** Python's `sub in s` for strings. */
  predicate Contains(s: string, sub: string) {
    exists k :: 0 <= k <= |s| - |sub| && OccursAt(s, sub, k)
  }

  /** `s.find(sub, from)`: the first occurrence of `sub` at or after `from`. */
  function Find(s: string, sub: string, from: nat): (r: Option<nat>)
    ensures r.Some? ==> from <= r.value && OccursAt(s, sub, r.value)
    ensures r.Some? ==> forall k :: from <= k < r.value ==> !OccursAt(s, sub, k)
    ensures r.None? ==> forall k :: from <= k ==> !OccursAt(s, sub, k)
    decreases |s| - from
  {
    if from + |sub| > |s| then None
    else if OccursAt(s, sub, from) then Some(from)
    else Find(s, sub, from + 1)
  }

  /** End of the run of whitespace that starts at `i`. */
  function SpaceRunEnd(s: string, i: nat): (e: nat)
    requires i <= |s|
    ensures i <= e <= |s|
    ensures forall k :: i <= k < e ==> IsSpace(s[k])
    ensures e == |s| || !IsSpace(s[e])
    decreases |s| - i
  {
    if i < |s| && IsSpace(s[i]) then SpaceRunEnd(s, i + 1) else i
  }

  /** Drops the longest prefix of characters satisfying `drop`. */
  function TrimStart(s: string, drop: char -> bool): (r: string)
    ensures |r| <= |s| && r == s[|s| - |r|..]
    ensures forall k :: 0 <= k < |s| - |r| ==> drop(s[k])
    ensures |r| > 0 ==> !drop(r[0])
    decreases |s|
  {
    if |s| > 0 && drop(s[0]) then TrimStart(s[1..], drop) else s
  }

  /** Drops the longest suffix of characters satisfying `drop`. */
  function TrimEnd(s: string, drop: char -> bool): (r: string)
    ensures |r| <= |s| && r == s[..|r|]
    ensures forall k :: |r| <= k < |s| ==> drop(s[k])
    ensures |r| > 0 ==> !drop(r[|r| - 1])
    decreases |s|
  {
    if |s| > 0 && drop(s[|s| - 1]) then TrimEnd(s[..|s| - 1], drop) else s
  }

  /** The part of `s` between the dropped prefix and the dropped suffix:
      `s[start..start + |r|] == r` with only dropped characters around it. */
  ghost predicate IsCore(s: string, r: string, start: int, drop: char -> bool) {
    && 0 <= start <= |s| - |r|
    && r == s[start..start + |r|]
    && (forall k :: 0 <= k < start ==> drop(s[k]))
    && (forall k :: start + |r| <= k < |s| ==> drop(s[k]))
  }

  /** Python's `s.strip(chars)`, with `drop` the set of characters to strip. */
  function StripBy(s: string, drop: char -> bool): (r: string)
    ensures exists start :: IsCore(s, r, start, drop)
    ensures |r| > 0 ==> !drop(r[0]) && !drop(r[|r| - 1])
  {
    var t := TrimStart(s, drop);
    var r := TrimEnd(t, drop);
    CoreOfTrims(s, t, r, drop);
    r
  }

  /** A dropped prefix and then a dropped suffix leave a core of `s`. */
  lemma CoreOfTrims(s: string, t: string, r: string, drop: char -> bool)
    requires |t| <= |s| && t == s[|s| - |t|..]
    requires forall k :: 0 <= k < |s| - |t| ==> drop(s[k])
    requires |r| <= |t| && r == t[..|r|]
    requires forall k :: |r| <= k < |t| ==> drop(t[k])
    ensures IsCore(s, r, |s| - |t|, drop)
  {
    var start := |s| - |t|;
    assert s[start..start + |r|] == t[..|r|];
    forall k | start + |r| <= k < |s| ensures drop(s[k]) {
      assert s[k] == t[k - start];
    }
  }

  /** `s.strip()` */
  function Strip(s: string): string {
    StripBy(s, IsSpace)
  }

  predicate IsDoubleQuote(c: char) { c == '"' }

  predicate IsSingleQuote(c: char) { c == '\'' }

  /** Stripping twice strips nothing more. */
  lemma StripIdempotent(s: string, drop: char -> bool)
    ensures StripBy(StripBy(s, drop), drop) == StripBy(s, drop)
  {
    var r := StripBy(s, drop);
    if |r| > 0 {
      assert TrimStart(r, drop) == r;
      assert TrimEnd(r, drop) == r;
    }
  }

  /** The stripped text begins at the first kept character. */
  lemma StripStartsAtFirstKept(s: string, drop: char -> bool, j: nat)
    requires j < |s| && !drop(s[j])
    requires forall k :: 0 <= k < j ==> drop(s[k])
    ensures |StripBy(s, drop)| > 0 && StripBy(s, drop)[0] == s[j]
  {
    var r := StripBy(s, drop);
    var start :| IsCore(s, r, start, drop);
    if |r| > 0 {
      assert s[start] == r[0];
    }
  }

  /** A string whose ends are kept strips to itself. */
  lemma StripByKeeps(s: string, drop: char -> bool)
    requires |s| > 0 ==> !drop(s[0]) && !drop(s[|s| - 1])
    ensures StripBy(s, drop) == s
  {
    assert TrimStart(s, drop) == s;
    assert TrimEnd(s, drop) == s;
  }

  /** Stripping removes one dropped character wrapped around a string with kept ends. */
  lemma StripByWrapped(x: string, c: char, drop: char -> bool)
    requires drop(c)
    requires |x| > 0 && !drop(x[0]) && !drop(x[|x| - 1])
    ensures StripBy([c] + x + [c], drop) == x
  {
    var s := [c] + x + [c];
    assert s[1..] == x + [c];
    assert TrimStart(s, drop) == TrimStart(x + [c], drop) == x + [c];
    assert (x + [c])[..|x|] == x;
    assert TrimEnd(x + [c], drop) == TrimEnd(x, drop) == x;
  }

  /** Python's `sep.join(parts)`. */
  function Join(parts: seq<string>, sep: char): string
    decreases |parts|
  {
    if |parts| == 0 then ""
    else if |parts| == 1 then parts[0]
    else parts[0] + [sep] + Join(parts[1..], sep)
  }

  /** Python's `s.split(sep)`: at least one part, no part contains `sep`,
      and joining the parts with `sep` gives `s` back. */
  function Split(s: string, sep: char): (parts: seq<string>)
    ensures |parts| >= 1
    ensures forall i :: 0 <= i < |parts| ==> sep !in parts[i]
    ensures Join(parts, sep) == s
    decreases |s|
  {
    if |s| == 0 then [""]
    else
      var rest := Split(s[1..], sep);
      if s[0] == sep then
        assert ([""] + rest)[1..] == rest;
        [""] + rest
      else
        var parts := [[s[0]] + rest[0]] + rest[1..];
        assert parts[1..] == rest[1..];
        assert |rest| > 1 ==> Join(rest, sep) == rest[0] + [sep] + Join(rest[1..], sep);
        parts
  }

  /** A separator-free string splits into itself alone. */
  lemma {:induction false} SplitNoSeparator(p: string, sep: char)
    requires sep !in p
    ensures Split(p, sep) == [p]
    decreases |p|
  {
    if |p| > 0 {
      SplitNoSeparator(p[1..], sep);
      assert [p[0]] + p[1..] == p;
    }
  }

  /** Splitting at the first separator peels off the first part. */
  lemma {:induction false} SplitFirstPart(p: string, sep: char, t: string)
    requires sep !in p
    ensures Split(p + [sep] + t, sep) == [p] + Split(t, sep)
    decreases |p|
  {
    var s := p + [sep] + t;
    if |p| == 0 {
      assert s[1..] == t;
    } else {
      assert s[1..] == p[1..] + [sep] + t;
      SplitFirstPart(p[1..], sep, t);
      assert [p[0]] + p[1..] == p;
    }
  }

  /** Splitting is the inverse of joining separator-free parts. */
  lemma {:induction false} SplitJoinRoundTrip(parts: seq<string>, sep: char)
    requires |parts| >= 1
    requires forall i :: 0 <= i < |parts| ==> sep !in parts[i]
    ensures Split(Join(parts, sep), sep) == parts
    decreases |parts|
  {
    if |parts| == 1 {
      SplitNoSeparator(parts[0], sep);
    } else {
      SplitJoinRoundTrip(parts[1..], sep);
      SplitFirstPart(parts[0], sep, Join(parts[1..], sep));
      assert [parts[0]] + parts[1..] == parts;
    }
  }

  /** Index of the first `c` in `s`. */
  function IndexOf(s: string, c: char): (i: nat)
    requires c in s
    ensures i < |s| && s[i] == c && c !in s[..i]
  {
    if s[0] == c then 0
    else
      var i := 1 + IndexOf(s[1..], c);
      assert s[..i] == [s[0]] + s[1..][..i - 1];
      i
  }

  /** The first `c` sits right after a `c`-free prefix. */
  lemma {:induction false} IndexOfFirst(key: string, c: char, rest: string)
    requires c !in key
    ensures IndexOf(key + [c] + rest, c) == |key|
    decreases |key|
  {
    if |key| > 0 {
      IndexOfFirst(key[1..], c, rest);
      assert (key + [c] + rest)[1..] == key[1..] + [c] + rest;
    }
  }

  /** Python's `s.split(sep, 1)` when `sep` occurs in `s`: the text before the
      first separator and everything after it. */
  function SplitOnce(s: string, sep: char): (pair: (string, string))
    requires sep in s
    ensures pair.0 + [sep] + pair.1 == s
    ensures sep !in pair.0
  {
    var i := IndexOf(s, sep);
    assert s[..i] + [sep] + s[i + 1..] == s;
    (s[..i], s[i + 1..])
  }

  /** The split happens at the first separator only: any later separators stay
      in the second half. */
  lemma SplitOnceUnique(key: string, sep: char, value: string)
    requires sep !in key
    ensures SplitOnce(key + [sep] + value, sep) == (key, value)
  {
    var s := key + [sep] + value;
    IndexOfFirst(key, sep, value);
    var i := IndexOf(s, sep);
    assert s[..i] == key;
    assert s[i + 1..] == value;
  }
}
