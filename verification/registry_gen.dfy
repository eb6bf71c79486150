/** scripts/generate-registry.py: the agent registry built from the
    frontmatter of every agent file. Its frontmatter parser differs from the
    plugin generator's: no `\s*\n` is needed after the closing fence, only the
    keys `name`, `model` and `color` are kept from `key: value` lines, values
    lose surrounding quotes, and the description is found by a separate regex
    search over the whole header. */
module RegistryGen {
  import opened Wrappers
  import opened Text
  import opened LastWins
  import opened Header
  import opened Catalogue

  /** `value.strip().strip('"').strip("'")` */
  function Unquote(s: string): (r: string)
    ensures |r| > 0 ==> r[0] != '\'' && r[|r| - 1] != '\''
  {
    StripBy(StripBy(Strip(s), IsDoubleQuote), IsSingleQuote)
  }

  /** A bare value and the same value in double or single quotes all unquote
      to the value itself. */
  lemma UnquoteQuoted(x: string)
    requires |x| > 0
    requires !IsSpace(x[0]) && x[0] != '"' && x[0] != '\''
    requires !IsSpace(x[|x| - 1]) && x[|x| - 1] != '"' && x[|x| - 1] != '\''
    ensures Unquote(x) == x
    ensures Unquote(['"'] + x + ['"']) == x
    ensures Unquote(['\''] + x + ['\'']) == x
  {
    UnquoteBare(x);
    UnquoteDouble(x);
    UnquoteSingle(x);
  }

  lemma UnquoteBare(x: string)
    requires |x| > 0
    requires !IsSpace(x[0]) && x[0] != '"' && x[0] != '\''
    requires !IsSpace(x[|x| - 1]) && x[|x| - 1] != '"' && x[|x| - 1] != '\''
    ensures Unquote(x) == x
  {
    StripByKeeps(x, IsSpace);
    StripByKeeps(x, IsDoubleQuote);
    StripByKeeps(x, IsSingleQuote);
  }

  lemma UnquoteDouble(x: string)
    requires |x| > 0
    requires !IsSpace(x[0]) && x[0] != '"' && x[0] != '\''
    requires !IsSpace(x[|x| - 1]) && x[|x| - 1] != '"' && x[|x| - 1] != '\''
    ensures Unquote(['"'] + x + ['"']) == x
  {
    var q := ['"'] + x + ['"'];
    assert q[0] == '"' && q[|q| - 1] == '"';
    StripByKeeps(q, IsSpace);
    assert Strip(q) == q;
    StripByWrapped(x, '"', IsDoubleQuote);
    assert StripBy(q, IsDoubleQuote) == x;
    StripByKeeps(x, IsSingleQuote);
  }

  lemma UnquoteSingle(x: string)
    requires |x| > 0
    requires !IsSpace(x[0]) && x[0] != '"' && x[0] != '\''
    requires !IsSpace(x[|x| - 1]) && x[|x| - 1] != '"' && x[|x| - 1] != '\''
    ensures Unquote(['\''] + x + ['\'']) == x
  {
    var q := ['\''] + x + ['\''];
    assert q[0] == '\'' && q[|q| - 1] == '\'';
    StripByKeeps(q, IsSpace);
    assert Strip(q) == q;
    StripByKeeps(q, IsDoubleQuote);
    assert StripBy(q, IsDoubleQuote) == q;
    StripByWrapped(x, '\'', IsSingleQuote);
  }

  /** The keys a `key: value` line may set. */
  const FieldKeys: seq<string> := ["name", "model", "color"]

  /** The `elif` branch for one line: a line with a colon whose stripped form
      does not start with `-` sets a whitelisted key to a non-empty value. */
  function FieldOf(line: string): (r: Option<(string, string)>)
    ensures r.Some? ==> r.value.0 in FieldKeys && r.value.1 != []
    ensures r.Some? ==> ':' in line && !StartsWith(Strip(line), "-")
  {
    if ':' in line && !StartsWith(Strip(line), "-") then
      var (key, value) := SplitOnce(line, ':');
      var key := Strip(key);
      var value := Unquote(value);
      if key in FieldKeys && value != [] then Some((key, value)) else None
    else None
  }

  /** The line is cut at its first colon: it sets its own stripped key to its
      own unquoted value when the key is whitelisted and the value survives
      unquoting, and sets nothing otherwise. */
  lemma FieldOfLine(key: string, value: string)
    requires ':' !in key
    ensures FieldOf(key + [':'] + value) ==
              if Strip(key) in FieldKeys && Unquote(value) != [] then Some((Strip(key), Unquote(value))) else None
  {
    SplitOnceUnique(key, ':', value);
    if Strip(key) in FieldKeys {
      KeyLineNotDashed(key, value);
    }
  }

  /** A line whose key is whitelisted is not a `-` list item. */
  lemma KeyLineNotDashed(key: string, value: string)
    requires Strip(key) in FieldKeys
    ensures !StartsWith(Strip(key + [':'] + value), "-")
  {
    var line := key + [':'] + value;
    WhitelistedKeyStart(Strip(key));
    var j := FirstKept(key);
    StripStartsAtFirstKept(key, IsSpace, j);
    assert line[..|key|] == key;
    LineStartsLikeKey(key, line, j);
    var r := Strip(line);
    assert r[0] != '-';
    assert r[..1] != "-" by {
      assert r[..1][0] == r[0];
    }
  }

  /** Extending a string keeps where its stripped form starts. */
  lemma LineStartsLikeKey(key: string, line: string, j: nat)
    requires j < |key| <= |line| && line[..|key|] == key
    requires !IsSpace(key[j])
    requires forall k :: 0 <= k < j ==> IsSpace(key[k])
    ensures |Strip(line)| > 0 && Strip(line)[0] == key[j]
  {
    assert forall k :: 0 <= k <= j ==> line[k] == key[k];
    StripStartsAtFirstKept(line, IsSpace, j);
  }

  lemma WhitelistedKeyStart(k: string)
    requires k in FieldKeys
    ensures |k| > 0 && k[0] != '-'
    ensures k != "description"
  {
  }

  /** Index of the first non-whitespace character of `s`. */
  ghost function FirstKept(s: string): (j: nat)
    requires Strip(s) != []
    ensures j < |s| && !IsSpace(s[j])
    ensures forall k :: 0 <= k < j ==> IsSpace(s[k])
  {
    var start :| IsCore(s, Strip(s), start, IsSpace);
    assert s[start] == Strip(s)[0];
    start
  }

  const DescriptionKey: string := "description:"
  const ModelLine: string := "\nmodel:"

  /** The lookahead `(?=\nmodel:|$)` holds at `t`: a `model:` line starts there,
      or `$` matches (end of text, or just before a final newline). */
  predicate StopsAt(y: string, t: int) {
    t == |y| || (0 <= t == |y| - 1 && y[t] == '\n') || OccursAt(y, ModelLine, t)
  }

  /** Where the lazy `(.+?)` ends: the first position from `from` on where the
      lookahead holds. */
  function FirstStop(y: string, from: nat): (t: nat)
    requires from <= |y|
    ensures from <= t <= |y| && StopsAt(y, t)
    ensures forall u :: from <= u < t ==> !StopsAt(y, u)
    decreases |y| - from
  {
    if StopsAt(y, from) then from else FirstStop(y, from + 1)
  }

  /** The lazy group `y[g..g + |text|]` of the description regex: at least one
      character, the lookahead holds after it and nowhere inside it. */
  predicate LazyGroup(y: string, g: int, text: string) {
    && 0 <= g && g + |text| <= |y|
    && |text| >= 1
    && y[g..g + |text|] == text
    && StopsAt(y, g + |text|)
    && forall u :: g < u < g + |text| ==> !StopsAt(y, u)
  }

  /** `re.search(r'description:\s*(.+?)(?=\nmodel:|$)', y, re.DOTALL).group(1)`.
      The search starts at the first occurrence of `description:` anywhere in
      `y`. The greedy `\s*` takes the whole whitespace run; if that run reaches
      the end, it gives back one character for the group. The search fails
      only when nothing follows the first `description:`. */
  function DescriptionText(y: string): (r: Option<string>)
    ensures r.None? <==>
              Find(y, DescriptionKey, 0).None? || Find(y, DescriptionKey, 0).value + |DescriptionKey| == |y|
    ensures r.Some? ==>
              var p := Find(y, DescriptionKey, 0).value + |DescriptionKey|;
              var e := SpaceRunEnd(y, p);
              LazyGroup(y, if e < |y| then e else e - 1, r.value)
  {
    match Find(y, DescriptionKey, 0)
    case None => None
    case Some(k) => DescriptionAfter(y, k + |DescriptionKey|)
  }

  /** The match attempt right after the key at `p - |DescriptionKey|`. */
  function DescriptionAfter(y: string, p: nat): (r: Option<string>)
    requires p <= |y|
    ensures r.None? <==> p == |y|
    ensures r.Some? ==>
              var e := SpaceRunEnd(y, p);
              LazyGroup(y, if e < |y| then e else e - 1, r.value)
  {
    var e := SpaceRunEnd(y, p);
    if e < |y| then
      LazyGroupFrom(y, e);
      Some(y[e..FirstStop(y, e + 1)])
    else if p < e then
      LazyGroupFrom(y, e - 1);
      Some(y[e - 1..e])
    else None
  }

  /** The lazy group starting at `g` runs to the first stop after its first
      character. */
  lemma LazyGroupFrom(y: string, g: nat)
    requires g < |y|
    ensures LazyGroup(y, g, y[g..FirstStop(y, g + 1)])
  {
  }

  /** A one-line description after the first `description:` and a run of
      whitespace, ended by a `model:` line or by the end of the header, is
      found exactly: the greedy `\s*` takes the whole run. */
  lemma DescriptionFound(pre: string, ws: string, text: string, tail: string)
    requires forall k :: 0 <= k < |pre| ==> !OccursAt(pre + DescriptionKey + ws + text + tail, DescriptionKey, k)
    requires forall k :: 0 <= k < |ws| ==> IsSpace(ws[k])
    requires |text| > 0 && !IsSpace(text[0]) && '\n' !in text
    requires tail == [] || StartsWith(tail, ModelLine)
    ensures DescriptionText(pre + DescriptionKey + ws + text + tail) == Some(text)
  {
    var y := pre + DescriptionKey + ws + text + tail;
    var p := |pre| + |DescriptionKey|;
    var g := p + |ws|;
    var end := g + |text|;
    assert y[|pre|..p] == DescriptionKey;
    assert y[p..g] == ws;
    assert y[g..end] == text;
    assert y[end..] == tail;
    DescriptionAt(y, |pre|, p, g, ws, text, tail);
  }

  /** `DescriptionFound` on indices: the key at `k`, then the run `ws`, the
      text and the tail. */
  lemma DescriptionAt(y: string, k: nat, p: nat, g: nat, ws: string, text: string, tail: string)
    requires p == k + |DescriptionKey| && g == p + |ws| && g + |text| + |tail| == |y|
    requires forall j :: 0 <= j < k ==> !OccursAt(y, DescriptionKey, j)
    requires y[k..p] == DescriptionKey && y[p..g] == ws
    requires y[g..g + |text|] == text && y[g + |text|..] == tail
    requires forall j :: 0 <= j < |ws| ==> IsSpace(ws[j])
    requires |text| > 0 && !IsSpace(text[0]) && '\n' !in text
    requires tail == [] || StartsWith(tail, ModelLine)
    ensures DescriptionText(y) == Some(text)
  {
    FindFirst(y, DescriptionKey, k);
    assert forall j :: p <= j < g ==> y[j] == ws[j - p];
    assert y[g] == text[0];
    SpaceRunEndAt(y, p, g);
    TextEndsAtStop(y, g, text, tail);
    FirstStopAt(y, g + 1, g + |text|);
    DescriptionTextAt(y, k, g, text);
  }

  /** The description search once the key, the end of the whitespace run and
      the first stop after it are known. */
  lemma DescriptionTextAt(y: string, k: nat, g: nat, text: string)
    requires Find(y, DescriptionKey, 0) == Some(k)
    requires k + |DescriptionKey| <= |y| && SpaceRunEnd(y, k + |DescriptionKey|) == g < |y|
    requires g < g + |text| <= |y| && FirstStop(y, g + 1) == g + |text| && y[g..g + |text|] == text
    ensures DescriptionText(y) == Some(text)
  {
    assert DescriptionText(y) == DescriptionAfter(y, k + |DescriptionKey|);
    DescriptionAfterRun(y, k + |DescriptionKey|, g, text);
  }

  lemma DescriptionAfterRun(y: string, p: nat, g: nat, text: string)
    requires p <= |y| && SpaceRunEnd(y, p) == g < |y|
    requires g < g + |text| <= |y| && FirstStop(y, g + 1) == g + |text| && y[g..g + |text|] == text
    ensures DescriptionAfter(y, p) == Some(text)
  {
  }

  /** The whitespace run from `p` ends at the first non-whitespace character. */
  lemma SpaceRunEndAt(y: string, p: nat, g: nat)
    requires p <= g < |y| && !IsSpace(y[g])
    requires forall k :: p <= k < g ==> IsSpace(y[k])
    ensures SpaceRunEnd(y, p) == g
  {
  }

  /** `Find` from the start returns the first occurrence. */
  lemma FindFirst(s: string, sub: string, k: nat)
    requires OccursAt(s, sub, k)
    requires forall j :: 0 <= j < k ==> !OccursAt(s, sub, j)
    ensures Find(s, sub, 0) == Some(k)
  {
  }

  /** `FirstStop` finds the first stop. */
  lemma FirstStopAt(y: string, from: nat, t: nat)
    requires from <= t <= |y| && StopsAt(y, t)
    requires forall u :: from <= u < t ==> !StopsAt(y, u)
    ensures FirstStop(y, from) == t
  {
  }

  /** A newline-free text at `p` followed by `tail` stops right after itself. */
  lemma TextEndsAtStop(y: string, p: nat, text: string, tail: string)
    requires p + |text| + |tail| == |y|
    requires y[p..p + |text|] == text && y[p + |text|..] == tail
    requires '\n' !in text
    requires tail == [] || StartsWith(tail, ModelLine)
    ensures StopsAt(y, p + |text|)
    ensures forall u :: p < u < p + |text| ==> !StopsAt(y, u)
  {
    var end := p + |text|;
    forall u | p < u < end
      ensures !StopsAt(y, u)
    {
      assert y[u] == text[u - p];
    }
    if tail != [] {
      assert y[end..end + |ModelLine|] == tail[..|ModelLine|];
    }
  }

  /** What the loop body does with one line: a line starting with
      `description:` runs the description search; any other line goes to the
      `key: value` branch with the assignment it yields, if any. */
  datatype LineKind = DescriptionLine | FieldLine(item: Option<(string, string)>)

  function Classify(line: string): (k: LineKind)
    ensures k.DescriptionLine? <==> StartsWith(line, DescriptionKey)
  {
    if StartsWith(line, DescriptionKey) then DescriptionLine else FieldLine(FieldOf(line))
  }

  /** The kind of every line, in order. */
  function Kinds(lines: seq<string>): (r: seq<LineKind>)
    ensures |r| == |lines|
    ensures forall i :: 0 <= i < |lines| ==> r[i] == Classify(lines[i])
  {
    seq(|lines|, i requires 0 <= i < |lines| => Classify(lines[i]))
  }

  /** One pass of the `for line in yaml_content.split('\n')` loop; `desc` is the
      result of the description search, which does not depend on the line. */
  function Step(desc: Option<string>, m: map<string, string>, kind: LineKind): map<string, string> {
    match kind
    case DescriptionLine =>
      (match desc
       case None => m
       case Some(text) => m["description" := Unquote(text)])
    case FieldLine(None) => m
    case FieldLine(Some((key, value))) => m[key := value]
  }

  /** Every key of `r` was set by some line: the description entry by a
      `description:` line with a successful search, any other entry by a
      `key: value` line carrying exactly that key and value. */
  predicate KeysFromLines(desc: Option<string>, kinds: seq<LineKind>, r: map<string, string>) {
    forall k :: k in r ==>
      || (k == "description" && desc.Some? && HasDescriptionLine(kinds))
      || exists i :: 0 <= i < |kinds| && kinds[i] == FieldLine(Some((k, r[k])))
  }

  /** The loop over the lines, in order. */
  function ParseLines(desc: Option<string>, kinds: seq<LineKind>): (r: map<string, string>)
    ensures KeysFromLines(desc, kinds, r)
    decreases |kinds|
  {
    if |kinds| == 0 then map[]
    else
      var m := ParseLines(desc, kinds[..|kinds| - 1]);
      StepKeysFromLines(desc, kinds, m);
      Step(desc, m, kinds[|kinds| - 1])
  }

  /** One more line keeps every key traceable to a line. */
  lemma StepKeysFromLines(desc: Option<string>, kinds: seq<LineKind>, m: map<string, string>)
    requires |kinds| > 0
    requires KeysFromLines(desc, kinds[..|kinds| - 1], m)
    ensures KeysFromLines(desc, kinds, Step(desc, m, kinds[|kinds| - 1]))
  {
    var n := |kinds| - 1;
    var front := kinds[..n];
    var r := Step(desc, m, kinds[n]);
    forall k | k in r
      ensures || (k == "description" && desc.Some? && HasDescriptionLine(kinds))
              || exists i :: 0 <= i < |kinds| && kinds[i] == FieldLine(Some((k, r[k])))
    {
      if kinds[n] == FieldLine(Some((k, r[k]))) {
      } else if kinds[n].DescriptionLine? && desc.Some? && k == "description" {
        assert kinds[n].DescriptionLine?;
      } else {
        assert k in m && r[k] == m[k];
        if k == "description" && desc.Some? && HasDescriptionLine(front) {
          var i :| 0 <= i < |front| && front[i].DescriptionLine?;
          assert kinds[i] == front[i];
        } else {
          var i :| 0 <= i < |front| && front[i] == FieldLine(Some((k, m[k])));
          assert kinds[i] == front[i];
        }
      }
    }
  }

  /** `parse_frontmatter(content)`: the empty dictionary when the header regex
      fails. */
  function ParseFrontmatter(content: string): (r: map<string, string>)
    ensures !HasBlock(content, false) ==> r == map[]
    ensures forall k :: k in r ==> k == "description" || k in FieldKeys
  {
    match Match(content, false)
    case None => map[]
    case Some((b, e)) =>
      var y := content[b..e];
      ParseLines(DescriptionText(y), Kinds(Split(y, '\n')))
  }

  /** The assignment the `key: value` branch makes for each line. */
  function FieldItems(kinds: seq<LineKind>): (r: seq<Option<(string, string)>>)
    ensures |r| == |kinds|
    ensures forall i :: 0 <= i < |kinds| ==>
              r[i] == if kinds[i].FieldLine? then kinds[i].item else None
  {
    seq(|kinds|, i requires 0 <= i < |kinds| =>
      if kinds[i].FieldLine? then kinds[i].item else None)
  }

  predicate HasDescriptionLine(kinds: seq<LineKind>) {
    exists i :: 0 <= i < |kinds| && kinds[i].DescriptionLine?
  }

  /** What the description branch contributes: one entry if some line starts
      with `description:` and the search succeeds, however many lines do. */
  function DescriptionPart(desc: Option<string>, kinds: seq<LineKind>): map<string, string> {
    if HasDescriptionLine(kinds) && desc.Some? then
      map["description" := Unquote(desc.value)]
    else map[]
  }

  /** The loop splits into two independent parts: the last-wins collection of
      the `key: value` lines, and the description search. */
  lemma {:induction false} ParseLinesSeparates(desc: Option<string>, kinds: seq<LineKind>)
    requires forall i :: 0 <= i < |kinds| && kinds[i].FieldLine? && kinds[i].item.Some? ==>
               kinds[i].item.value.0 != "description"
    ensures ParseLines(desc, kinds) == Collect(FieldItems(kinds)) + DescriptionPart(desc, kinds)
    decreases |kinds|
  {
    if |kinds| == 0 {
      assert Collect(FieldItems(kinds)) == map[];
      assert DescriptionPart(desc, kinds) == map[];
    } else {
      var n := |kinds| - 1;
      var front := kinds[..n];
      ParseLinesSeparates(desc, front);
      DescriptionPartSnoc(desc, kinds);
      CollectFieldItemsSnoc(kinds);
      StepSeparates(desc, Collect(FieldItems(front)), DescriptionPart(desc, front), kinds[n]);
    }
  }

  /** The field collection after one more line. */
  lemma CollectFieldItemsSnoc(kinds: seq<LineKind>)
    requires |kinds| > 0
    ensures var kind := kinds[|kinds| - 1];
            var m := Collect(FieldItems(kinds[..|kinds| - 1]));
            Collect(FieldItems(kinds)) ==
              if kind.FieldLine? && kind.item.Some? then m[kind.item.value.0 := kind.item.value.1] else m
  {
    assert FieldItems(kinds)[..|kinds| - 1] == FieldItems(kinds[..|kinds| - 1]);
  }

  /** One loop pass over a dictionary split into its field part `m` and its
      description part `d` acts on each part separately. */
  lemma StepSeparates(desc: Option<string>, m: map<string, string>, d: map<string, string>, kind: LineKind)
    requires d.Keys <= {"description"}
    requires kind.FieldLine? && kind.item.Some? ==> kind.item.value.0 != "description"
    ensures Step(desc, m + d, kind) ==
              (if kind.FieldLine? && kind.item.Some? then m[kind.item.value.0 := kind.item.value.1] else m)
              + (if kind.DescriptionLine? && desc.Some? then map["description" := Unquote(desc.value)] else d)
  {
    if kind.DescriptionLine? {
      if desc.Some? {
        UnionSetDescription(m, d, Unquote(desc.value));
      }
    } else if kind.item.Some? {
      UnionUpdateCommutes(m, d, kind.item.value.0, kind.item.value.1);
    }
  }

  /** The description part after one more line: set anew by a `description:`
      line, kept otherwise. */
  lemma DescriptionPartSnoc(desc: Option<string>, kinds: seq<LineKind>)
    requires |kinds| > 0
    ensures DescriptionPart(desc, kinds[..|kinds| - 1]).Keys <= {"description"}
    ensures DescriptionPart(desc, kinds) ==
              if kinds[|kinds| - 1].DescriptionLine? && desc.Some? then map["description" := Unquote(desc.value)]
              else DescriptionPart(desc, kinds[..|kinds| - 1])
  {
    HasDescriptionLineSnoc(kinds);
  }

  lemma HasDescriptionLineSnoc(kinds: seq<LineKind>)
    requires |kinds| > 0
    ensures HasDescriptionLine(kinds) <==>
              HasDescriptionLine(kinds[..|kinds| - 1]) || kinds[|kinds| - 1].DescriptionLine?
  {
    var n := |kinds| - 1;
    var front := kinds[..n];
    if HasDescriptionLine(kinds) {
      var i :| 0 <= i < |kinds| && kinds[i].DescriptionLine?;
      if i < n {
        assert front[i] == kinds[i];
      }
    }
    if HasDescriptionLine(front) {
      var i :| 0 <= i < |front| && front[i].DescriptionLine?;
      assert kinds[i] == front[i];
    }
  }

  /** Setting a key the right operand lacks commutes with the union. */
  lemma UnionUpdateCommutes(m: map<string, string>, d: map<string, string>, key: string, value: string)
    requires key !in d
    ensures (m + d)[key := value] == m[key := value] + d
  {
  }

  /** Setting the description over a union whose right operand holds at most
      the description. */
  lemma UnionSetDescription(m: map<string, string>, d: map<string, string>, text: string)
    requires d.Keys <= {"description"}
    ensures (m + d)["description" := text] == m + map["description" := text]
  {
  }

  /** In a parsed header, a key other than the description comes from the
      last `key: value` line that sets it, and only `name`, `model` and
      `color` appear besides the description. */
  lemma ParseFieldLastWins(y: string, k: string)
    requires k != "description"
    ensures var lines := Split(y, '\n');
            var m := ParseLines(DescriptionText(y), Kinds(lines));
            var items := FieldItems(Kinds(lines));
            && (k in m <==> exists i :: 0 <= i < |lines| && Assigns(items[i], k))
            && (k in m ==> k in FieldKeys)
            && (k in m ==>
                  exists i :: && 0 <= i < |lines| && Assigns(items[i], k)
                              && m[k] == items[i].value.1
                              && forall j :: i < j < |lines| ==> !Assigns(items[j], k))
  {
    ParseLinesFieldLastWins(DescriptionText(y), Split(y, '\n'), k);
  }

  /** `ParseFieldLastWins` for any outcome of the description search. */
  lemma ParseLinesFieldLastWins(desc: Option<string>, lines: seq<string>, k: string)
    requires k != "description"
    ensures var m := ParseLines(desc, Kinds(lines));
            var items := FieldItems(Kinds(lines));
            && (k in m <==> exists i :: 0 <= i < |lines| && Assigns(items[i], k))
            && (k in m ==> k in FieldKeys)
            && (k in m ==>
                  exists i :: && 0 <= i < |lines| && Assigns(items[i], k)
                              && m[k] == items[i].value.1
                              && forall j :: i < j < |lines| ==> !Assigns(items[j], k))
  {
    var kinds := Kinds(lines);
    var items := FieldItems(kinds);
    KindsSetFieldKeys(lines);
    ParseAgreesOffDescription(desc, kinds, k);
    CollectLastWins(items, k);
  }

  /** Away from the description, the loop leaves what the last-wins
      collection of the `key: value` lines leaves. */
  lemma ParseAgreesOffDescription(desc: Option<string>, kinds: seq<LineKind>, k: string)
    requires k != "description"
    requires forall i :: 0 <= i < |kinds| && kinds[i].FieldLine? && kinds[i].item.Some? ==>
               kinds[i].item.value.0 != "description"
    ensures k in ParseLines(desc, kinds) <==> k in Collect(FieldItems(kinds))
    ensures k in ParseLines(desc, kinds) ==> ParseLines(desc, kinds)[k] == Collect(FieldItems(kinds))[k]
  {
    ParseLinesSeparates(desc, kinds);
  }

  /** In a parsed header the description is present exactly when some line
      starts with `description:` and the description search succeeds. */
  lemma ParseDescriptionPresent(y: string)
    ensures var lines := Split(y, '\n');
            var m := ParseLines(DescriptionText(y), Kinds(lines));
            "description" in m <==>
              (exists i :: 0 <= i < |lines| && StartsWith(lines[i], DescriptionKey))
              && DescriptionText(y).Some?
  {
    ParseLinesDescriptionPresent(DescriptionText(y), Split(y, '\n'));
  }

  /** `ParseDescriptionPresent` for any outcome of the description search. */
  lemma ParseLinesDescriptionPresent(desc: Option<string>, lines: seq<string>)
    ensures "description" in ParseLines(desc, Kinds(lines)) <==>
              (exists i :: 0 <= i < |lines| && StartsWith(lines[i], DescriptionKey)) && desc.Some?
  {
    var kinds := Kinds(lines);
    var items := FieldItems(kinds);
    KindsSetFieldKeys(lines);
    ParseLinesSeparates(desc, kinds);
    CollectLastWins(items, "description");
    assert HasDescriptionLine(kinds) <==> exists i :: 0 <= i < |lines| && StartsWith(lines[i], DescriptionKey) by {
      if HasDescriptionLine(kinds) {
        var i :| 0 <= i < |kinds| && kinds[i].DescriptionLine?;
        assert kinds[i] == Classify(lines[i]);
      }
    }
  }

  /** The `key: value` branch only ever sets whitelisted keys. */
  lemma KindsSetFieldKeys(lines: seq<string>)
    ensures var kinds := Kinds(lines);
            forall i :: 0 <= i < |kinds| && kinds[i].FieldLine? && kinds[i].item.Some? ==>
              kinds[i].item.value.0 in FieldKeys && kinds[i].item.value.0 != "description"
    ensures forall i :: 0 <= i < |lines| && FieldItems(Kinds(lines))[i].Some? ==>
              FieldItems(Kinds(lines))[i].value.0 in FieldKeys
  {
    var kinds := Kinds(lines);
    forall i | 0 <= i < |kinds| && kinds[i].FieldLine? && kinds[i].item.Some?
      ensures kinds[i].item.value.0 in FieldKeys && kinds[i].item.value.0 != "description"
    {
      ClassifiedKey(lines[i]);
    }
  }

  lemma ClassifiedKey(line: string)
    ensures var kind := Classify(line);
            kind.FieldLine? && kind.item.Some? ==>
              kind.item.value.0 in FieldKeys && kind.item.value.0 != "description"
  {
    var r := FieldOf(line);
    if r.Some? {
      WhitelistedKeyStart(r.value.0);
    }
  }

  /** The name shown for an agent: `name.title()` when `name.islower()`,
      otherwise the name unchanged. */
  function EntryName(agentName: string): (r: string)
    ensures |r| == |agentName|
    ensures IsLowerString(agentName) ==> Lower(r) == agentName
    ensures IsLowerString(agentName) ==>
              forall i :: 0 <= i < |r| ==>
                (IsUpper(r[i]) <==> IsCased(agentName[i]) && (i == 0 || !IsCased(agentName[i - 1])))
    ensures !IsLowerString(agentName) ==> r == agentName
  {
    if IsLowerString(agentName) then
      TitleLowerRoundTrip(agentName);
      TitleUpperAtWordStarts(agentName);
      Title(agentName)
    else agentName
  }

  /** Title-casing is applied once: the shown name of a shown name is itself. */
  lemma EntryNameIdempotent(agentName: string)
    ensures EntryName(EntryName(agentName)) == EntryName(agentName)
  {
    if IsLowerString(agentName) {
      TitleOfLowerHasUpper(agentName);
    }
  }

  /** `[.!?]\s` matches at `i`: the sentence end `re.split` cuts at. */
  predicate BreakAt(d: string, i: int) {
    0 <= i && i + 1 < |d| && d[i] in ".!?" && IsSpace(d[i + 1])
  }

  /** `re.split(r'[.!?]\s', d)[0]`: the text before the first sentence end. */
  function FirstSentence(d: string): (r: string)
    ensures |r| <= |d| && r == d[..|r|]
    ensures |r| < |d| ==> BreakAt(d, |r|)
    ensures forall i :: 0 <= i < |r| ==> !BreakAt(d, i)
  {
    FirstSentenceFrom(d, 0)
  }

  function FirstSentenceFrom(d: string, from: nat): (r: string)
    requires from <= |d|
    requires forall i :: 0 <= i < from ==> !BreakAt(d, i)
    ensures from <= |r| <= |d| && r == d[..|r|]
    ensures |r| < |d| ==> BreakAt(d, |r|)
    ensures forall i :: 0 <= i < |r| ==> !BreakAt(d, i)
    decreases |d| - from
  {
    if from == |d| then d
    else if BreakAt(d, from) then d[..from]
    else FirstSentenceFrom(d, from + 1)
  }

  const SummaryLimit: nat := 200

  /** The registry's description: the first sentence when it is shorter than
      200 characters, otherwise the first 200 characters and `...`. */
  function Summarize(d: string): (r: string)
    ensures |r| < SummaryLimit || |r| == SummaryLimit + 3
    ensures |r| < SummaryLimit <==> |FirstSentence(d)| < SummaryLimit
    ensures |r| < SummaryLimit ==> r == FirstSentence(d)
    ensures |r| >= SummaryLimit ==> r == d[..SummaryLimit] + "..."
  {
    var first := FirstSentence(d);
    if |first| < SummaryLimit then first else d[..SummaryLimit] + "..."
  }

  /** A short description without a sentence end is kept whole, and one with a
      sentence end early enough is cut there. */
  lemma SummarizeShort(d: string, i: nat)
    requires i < SummaryLimit
    requires i == |d| || BreakAt(d, i)
    requires forall j :: 0 <= j < i ==> !BreakAt(d, j)
    ensures Summarize(d) == d[..i]
  {
  }

  /** Summarizing a summary changes nothing. */
  lemma SummarizeIdempotent(d: string)
    ensures Summarize(Summarize(d)) == Summarize(d)
  {
    var r := Summarize(d);
    if |r| < SummaryLimit {
      forall j | 0 <= j < |r| ensures !BreakAt(r, j) {
        assert !BreakAt(d, j);
        if j + 1 < |r| {
          assert r[j] == d[j] && r[j + 1] == d[j + 1];
        }
      }
      SummarizeShort(r, |r|);
      assert r[..|r|] == r;
    } else {
      forall j | 0 <= j < |r| ensures !BreakAt(r, j) {
        if j < SummaryLimit - 1 {
          assert !BreakAt(d, j);
          assert r[j] == d[j] && r[j + 1] == d[j + 1];
        }
      }
      assert FirstSentence(r) == r;
      assert r[..SummaryLimit] == d[..SummaryLimit];
    }
  }

  /** The registry entry of one file, keyed by its frontmatter name; `None`
      when the file is skipped: `README.md`, an unreadable file, or a
      frontmatter without a non-empty `name`. */
  function EntryFor(file: AgentFile): (r: Option<(string, RegistryEntry)>)
    ensures r.Some? ==> file.name != "README.md" && r.value.1.path == AgentPath(file.name)
  {
    if file.name == "README.md" then None
    else match file.content
      case None => None
      case Some(content) =>
        var fm := ParseFrontmatter(content);
        if "name" !in fm || fm["name"] == [] then None
        else
          var agentName := fm["name"];
          Some((agentName, RegistryEntry(
            name := EntryName(agentName),
            path := AgentPath(file.name),
            model := if "model" in fm then Some(fm["model"]) else None,
            color := if "color" in fm then Some(fm["color"]) else None,
            description := if "description" in fm then Some(Summarize(fm["description"])) else None)))
  }

  /** A file yields an entry exactly when it is not `README.md`, it can be
      read and its frontmatter has a non-empty `name`; the entry is keyed by
      that name and copies `model` and `color`, and the summarized
      description, from the frontmatter. */
  lemma EntryForSpec(file: AgentFile)
    ensures var r := EntryFor(file);
            r.Some? <==>
              && file.name != "README.md" && file.content.Some?
              && "name" in ParseFrontmatter(file.content.value)
              && ParseFrontmatter(file.content.value)["name"] != []
    ensures var r := EntryFor(file);
            r.Some? ==>
              var (key, entry) := r.value;
              var fm := ParseFrontmatter(file.content.value);
              && key != [] && "name" in fm && fm["name"] == key
              && entry.name == EntryName(key)
              && entry.path == AgentPath(file.name)
              && (entry.model.Some? <==> "model" in fm)
              && (entry.model.Some? ==> entry.model.value == fm["model"])
              && (entry.color.Some? <==> "color" in fm)
              && (entry.color.Some? ==> entry.color.value == fm["color"])
              && (entry.description.Some? <==> "description" in fm)
              && (entry.description.Some? ==> entry.description.value == Summarize(fm["description"]))
              && (entry.description.Some? ==> |entry.description.value| <= SummaryLimit + 3)
  {
  }

  /** The per-file results in directory order. */
  function Entries(files: seq<AgentFile>): (r: seq<Option<(string, RegistryEntry)>>)
    ensures |r| == |files|
    ensures forall i :: 0 <= i < |files| ==> r[i] == EntryFor(files[i])
  {
    seq(|files|, i requires 0 <= i < |files| => EntryFor(files[i]))
  }

  /** `generate_registry(agents_dir)` over the sorted listing `files`. */
  function GenerateRegistry(files: seq<AgentFile>): (r: Registry)
    ensures r.version == "1.0.1"
  {
    Registry("1.0.1", Collect(Entries(files)))
  }

  /** Every entry of the registry shows its key's display name, points into
      the agents directory and has a bounded description. */
  lemma RegistryEntryShape(files: seq<AgentFile>, k: string)
    requires k in GenerateRegistry(files).agents
    ensures var e := GenerateRegistry(files).agents[k];
            && e.name == EntryName(k)
            && StartsWith(e.path, "./agents/")
            && (e.description.Some? ==> |e.description.value| <= SummaryLimit + 3)
  {
    RegistryLastWins(files, k);
    var agents := GenerateRegistry(files).agents;
    var i :| 0 <= i < |files| && Assigns(EntryFor(files[i]), k) && agents[k] == EntryFor(files[i]).value.1;
    EntryForSpec(files[i]);
    assert AgentPath(files[i].name)[..|"./agents/"|] == "./agents/";
  }

  /** An agent is in the registry exactly when some file yields it; two files
      with the same frontmatter name leave the later one's entry. */
  lemma RegistryLastWins(files: seq<AgentFile>, k: string)
    ensures var agents := GenerateRegistry(files).agents;
            k in agents <==> exists i :: 0 <= i < |files| && Assigns(EntryFor(files[i]), k)
    ensures var agents := GenerateRegistry(files).agents;
            k in agents ==>
              exists i :: && 0 <= i < |files| && Assigns(EntryFor(files[i]), k)
                             && agents[k] == EntryFor(files[i]).value.1
                             && agents[k].path == AgentPath(files[i].name)
                             && forall j :: i < j < |files| ==> !Assigns(EntryFor(files[j]), k)
  {
    var items := Entries(files);
    CollectLastWins(items, k);
    var agents := Collect(items);
    if k in agents {
      var i :| && 0 <= i < |items| && Assigns(items[i], k) && agents[k] == items[i].value.1
               && forall j :: i < j < |items| ==> !Assigns(items[j], k);
      assert items[i] == EntryFor(files[i]);
      assert forall j :: i < j < |items| ==> items[j] == EntryFor(files[j]);
    } else {
      forall i | 0 <= i < |files| ensures !Assigns(EntryFor(files[i]), k) {
        assert items[i] == EntryFor(files[i]);
      }
    }
  }
}
