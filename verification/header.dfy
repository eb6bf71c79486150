/** The frontmatter block at the top of an agent markdown file, as the scripts
    find it with the anchored regular expressions

        `^---\s*\n(.*?)\n---\s*\n`   (generate_plugins.py, with `trailing`)
        `^---\s*\n(.*?)\n---`        (scripts/generate-registry.py)

    under DOTALL. The scanner follows the regex engine's backtracking order:
    the greedy `\s*` after the opening fence tries its longest extent first, so
    the candidate newlines closing the opening fence are tried from the last one
    backwards; for each, the lazy `(.*?)` stops at the first closing fence. */
module Header {
  import opened Wrappers
  import opened Text

  /** The opening `---\s*\n` can end with the newline at index `p`. */
  predicate OpensAt(s: string, p: int) {
    && StartsWith(s, "---")
    && 3 <= p < |s|
    && s[p] == '\n'
    && forall k :: 3 <= k < p ==> IsSpace(s[k])
  }

  /** `\s*\n` can match at `i`: the whitespace run starting there holds a newline. */
  predicate NewlineInRun(s: string, i: nat)
    decreases |s| - i
  {
    i < |s| && IsSpace(s[i]) && (s[i] == '\n' || NewlineInRun(s, i + 1))
  }

  /** The closing `\n---` (followed by `\s*\n` when `trailing`) can start at `j`. */
  predicate ClosesAt(s: string, j: int, trailing: bool) {
    && 0 <= j
    && j + 4 <= |s|
    && s[j..j + 4] == "\n---"
    && (trailing ==> NewlineInRun(s, j + 4))
  }

  /** Some opening and some later closing fence exist: the regex matches. */
  ghost predicate HasBlock(s: string, trailing: bool) {
    exists p, j :: OpensAt(s, p) && p < j && ClosesAt(s, j, trailing)
  }

  /** Where the lazy body group stops: the first closing fence at or after `from`. */
  function FirstClose(s: string, from: nat, trailing: bool): (r: Option<nat>)
    ensures r.Some? ==> from <= r.value && ClosesAt(s, r.value, trailing)
    ensures r.Some? ==> forall k :: from <= k < r.value ==> !ClosesAt(s, k, trailing)
    ensures r.None? ==> forall k :: from <= k ==> !ClosesAt(s, k, trailing)
    decreases |s| - from
  {
    if from + 4 > |s| then None
    else if ClosesAt(s, from, trailing) then Some(from)
    else FirstClose(s, from + 1, trailing)
  }

  /** Tries the newline candidates of the opening fence from index `p` down to 3. */
  function Search(s: string, p: int, trailing: bool): Option<(nat, nat)>
    decreases p
  {
    if p < 3 then None
    else if p < |s| && s[p] == '\n' && FirstClose(s, p + 1, trailing).Some? then
      Some((p + 1, FirstClose(s, p + 1, trailing).value))
    else Search(s, p - 1, trailing)
  }

  /** Opening candidate `q` is followed by some closing fence. */
  predicate Viable(s: string, q: int, trailing: bool) {
    OpensAt(s, q) && FirstClose(s, q + 1, trailing).Some?
  }

  /** A candidate is viable exactly when a closing fence follows it. */
  lemma ViableIff(s: string, q: int, trailing: bool)
    requires OpensAt(s, q)
    ensures Viable(s, q, trailing) <==> exists j :: q < j && ClosesAt(s, j, trailing)
  {
    if !Viable(s, q, trailing) {
      assert forall j :: q < j ==> !ClosesAt(s, j, trailing);
    }
  }

  /** `Search` from `p` fails exactly when no candidate at or below `p` is viable. */
  lemma {:induction false} SearchFails(s: string, p: int, trailing: bool)
    requires StartsWith(s, "---")
    requires p < SpaceRunEnd(s, 3)
    ensures Search(s, p, trailing).None? <==> forall q :: q <= p ==> !Viable(s, q, trailing)
    decreases p
  {
    if p < 3 {
      assert forall q :: q <= p ==> !OpensAt(s, q);
    } else {
      CandidateInRun(s, p);
      SearchFails(s, p - 1, trailing);
      if !Viable(s, p, trailing) {
        assert Search(s, p, trailing) == Search(s, p - 1, trailing);
        assert (forall q :: q <= p ==> !Viable(s, q, trailing)) <==>
               (forall q :: q <= p - 1 ==> !Viable(s, q, trailing));
      }
    }
  }

  /** When `Search` from `p` succeeds, it found the highest viable candidate at or
      below `p`, paired with that candidate's first closing fence. */
  lemma {:induction false} SearchFindsHighest(s: string, p: int, trailing: bool)
    requires StartsWith(s, "---")
    requires p < SpaceRunEnd(s, 3)
    requires Search(s, p, trailing).Some?
    ensures var b := Search(s, p, trailing).value.0;
            && Viable(s, b - 1, trailing)
            && b - 1 <= p
            && FirstClose(s, b, trailing) == Some(Search(s, p, trailing).value.1)
            && forall q :: b - 1 < q <= p ==> !Viable(s, q, trailing)
    decreases p
  {
    if 3 <= p {
      SearchStep(s, p, trailing);
      if Viable(s, p, trailing) {
        assert Search(s, p, trailing).value.0 == p + 1;
      } else {
        SearchFindsHighest(s, p - 1, trailing);
        var b := Search(s, p - 1, trailing).value.0;
        assert forall q :: b - 1 < q <= p - 1 ==> !Viable(s, q, trailing);
      }
    }
  }

  /** One step of `Search`: stop at a viable candidate, move down otherwise. */
  lemma SearchStep(s: string, p: int, trailing: bool)
    requires StartsWith(s, "---")
    requires 3 <= p < SpaceRunEnd(s, 3)
    ensures Viable(s, p, trailing) ==> Search(s, p, trailing) == Some((p + 1, FirstClose(s, p + 1, trailing).value))
    ensures !Viable(s, p, trailing) ==> Search(s, p, trailing) == Search(s, p - 1, trailing)
  {
    CandidateInRun(s, p);
  }

  /** Inside the whitespace run after `---`, a newline is an opening candidate. */
  lemma CandidateInRun(s: string, p: int)
    requires StartsWith(s, "---")
    requires 3 <= p < SpaceRunEnd(s, 3)
    ensures p < |s|
    ensures s[p] == '\n' <==> OpensAt(s, p)
  {
  }

  /** Every opening candidate lies inside the whitespace run after `---`. */
  lemma OpeningsInRun(s: string, q: int)
    requires OpensAt(s, q)
    ensures q < SpaceRunEnd(s, 3)
  {
    assert forall k :: 3 <= k <= q ==> IsSpace(s[k]);
  }

  /** The body of the frontmatter block as `(start, end)` indices into `s`, or
      `None` when the regex does not match. A match is exactly an opening fence
      followed by a closing one; the body starts after the highest opening
      candidate that has any closing fence after it, and ends at the first such
      closing fence. */
  function Match(s: string, trailing: bool): (r: Option<(nat, nat)>)
    ensures r.None? <==> !HasBlock(s, trailing)
    ensures r.Some? ==> r.value.0 <= r.value.1 <= |s|
    ensures r.Some? ==>
              var (b, e) := r.value;
              && OpensAt(s, b - 1)
              && ClosesAt(s, e, trailing)
              && (forall k :: b <= k < e ==> !ClosesAt(s, k, trailing))
              && (forall q, j :: OpensAt(s, q) && b - 1 < q && q < j ==> !ClosesAt(s, j, trailing))
  {
    if StartsWith(s, "---") then
      var top := SpaceRunEnd(s, 3) - 1;
      MatchFails(s, top, trailing);
      if Search(s, top, trailing).Some? then
        MatchFinds(s, top, trailing);
        Search(s, top, trailing)
      else
        None
    else
      None
  }

  /** Translates `SearchFails` at the top candidate into fences. */
  lemma MatchFails(s: string, top: int, trailing: bool)
    requires StartsWith(s, "---") && top == SpaceRunEnd(s, 3) - 1
    ensures Search(s, top, trailing).None? <==> !HasBlock(s, trailing)
  {
    SearchFails(s, top, trailing);
    forall q | OpensAt(s, q)
      ensures q <= top
      ensures Viable(s, q, trailing) <==> exists j :: q < j && ClosesAt(s, j, trailing)
    {
      OpeningsInRun(s, q);
      ViableIff(s, q, trailing);
    }
  }

  /** Translates `SearchFindsHighest` at the top candidate into fences. */
  lemma MatchFinds(s: string, top: int, trailing: bool)
    requires StartsWith(s, "---") && top == SpaceRunEnd(s, 3) - 1
    requires Search(s, top, trailing).Some?
    ensures var (b, e) := Search(s, top, trailing).value;
            && OpensAt(s, b - 1)
            && ClosesAt(s, e, trailing)
            && b <= e <= |s|
            && (forall k :: b <= k < e ==> !ClosesAt(s, k, trailing))
            && (forall q, j :: OpensAt(s, q) && b - 1 < q && q < j ==> !ClosesAt(s, j, trailing))
  {
    SearchFindsHighest(s, top, trailing);
    var b := Search(s, top, trailing).value.0;
    forall q, j | OpensAt(s, q) && b - 1 < q && q < j
      ensures !ClosesAt(s, j, trailing)
    {
      OpeningsInRun(s, q);
      ViableIff(s, q, trailing);
    }
  }
}
