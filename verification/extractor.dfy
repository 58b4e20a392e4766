/** The embedded-state extractor of the BattleMetrics collector.

    The collector locates the JSON application state inside the rendered page with
    the regular expression

        <script id="storeBootstrap" type="application/json">(.+?)</script>

    applied once with Go's `FindSubmatch`. Go's regular expressions use leftmost-first
    semantics, so the match
      - begins at the leftmost position where any match can begin, and
      - the lazy `+?` takes the shortest capture of at least one character that is
        followed by the closing tag;
    without the `s` flag `.` matches every character except a line feed.
    This module states those rules as predicates (`MatchAt`, `FirstMatch`) and proves
    that the executable search `Extract` returns exactly the capture they describe. */
module StateExtractor {
  import opened Wrappers

  /** Literal text in front of the capture,
      `<script id="storeBootstrap" type="application/json">`, written as tag and
      attributes so that its characters can be reasoned about piece by piece. */
  const Open: string := "<script" + IdAttribute + TypeAttribute
  const IdAttribute: string := " id=\"storeBootstrap\""
  const TypeAttribute: string := " type=\"application/json\">"
  /** Literal text behind the capture. */
  const Close: string := "</script>"

  /** `pat` occurs in `text` starting at index `i`. */
  predicate OccursAt(text: string, i: int, pat: string)
  {
    0 <= i && i + |pat| <= |text| && text[i..i + |pat|] == pat
  }

  /** Every character of `s` is matched by the regular expression `.`. */
  predicate NewlineFree(s: string)
  {
    forall k :: 0 <= k < |s| ==> s[k] != '\n'
  }

  /** A capture `(.+?)` that starts at `s` can end at `j`: it is non-empty, it consists
      of `.`-characters, and the closing tag follows it. */
  predicate CaptureEndsAt(page: string, s: int, j: int)
  {
    0 <= s < j && OccursAt(page, j, Close) && NewlineFree(page[s..j])
  }

  /** The whole pattern matches `page` from index `i` with its capture ending at `j`. */
  predicate MatchAt(page: string, i: int, j: int)
  {
    OccursAt(page, i, Open) && CaptureEndsAt(page, i + |Open|, j)
  }

  /** Some match of the pattern begins at index `i`. */
  ghost predicate Admits(page: string, i: int)
  {
    exists j :: MatchAt(page, i, j)
  }

  /** The pattern matches nowhere in `page`. */
  ghost predicate NoMatch(page: string)
  {
    forall i, j :: !MatchAt(page, i, j)
  }

  /** `(i, j)` is the match `FindSubmatch` reports: leftmost start, then shortest capture. */
  ghost predicate FirstMatch(page: string, i: int, j: int)
  {
    && MatchAt(page, i, j)
    && (forall i' :: 0 <= i' < i ==> !Admits(page, i'))
    && (forall j' :: j' < j ==> !MatchAt(page, i, j'))
  }

  /** Searches for the end of the capture starting at `s`, trying ends `j, j + 1, ...`
      in order; `page[s..j - 1]` has already been checked to be free of line feeds. */
  function FindEnd(page: string, s: nat, j: nat): (r: Option<nat>)
    requires s < j <= |page|
    requires NewlineFree(page[s..j - 1])
    ensures r.Some? ==> j <= r.value && CaptureEndsAt(page, s, r.value)
    ensures r.Some? ==> forall j' :: j <= j' < r.value ==> !CaptureEndsAt(page, s, j')
    ensures r.None? ==> forall j' :: j <= j' ==> !CaptureEndsAt(page, s, j')
    decreases |page| - j
  {
    if page[j - 1] == '\n' then
      assert forall j' | j <= j' <= |page| :: page[s..j'][j - 1 - s] == '\n';
      None
    else
      assert page[s..j] == page[s..j - 1] + [page[j - 1]];
      if OccursAt(page, j, Close) then
        Some(j)
      else if j == |page| then
        None
      else
        FindEnd(page, s, j + 1)
  }

  /** Searches for the leftmost start at or after `i` that admits a match, and returns
      it together with the shortest capture end for that start. */
  function FindStart(page: string, i: nat): (r: Option<(nat, nat)>)
    ensures r.Some? ==> i <= r.value.0 && MatchAt(page, r.value.0, r.value.1)
    ensures r.Some? ==> forall i' :: i <= i' < r.value.0 ==> !Admits(page, i')
    ensures r.Some? ==> forall j' :: j' < r.value.1 ==> !MatchAt(page, r.value.0, j')
    ensures r.None? ==> forall i', j :: i <= i' ==> !MatchAt(page, i', j)
    decreases |page| - i
  {
    if |page| <= i + |Open| then
      None
    else
      var e := if OccursAt(page, i, Open) then FindEnd(page, i + |Open|, i + |Open| + 1) else None;
      if e.Some? then Some((i, e.value)) else FindStart(page, i + 1)
  }

  /** There is at most one first match. */
  lemma FirstMatchUnique(page: string)
    ensures forall i, j, i', j' :: FirstMatch(page, i, j) && FirstMatch(page, i', j') ==> i == i' && j == j'
  {
    forall i, j, i', j' | FirstMatch(page, i, j) && FirstMatch(page, i', j')
      ensures i == i' && j == j'
    {
      if i < i' {
        assert Admits(page, i);
      } else if i' < i {
        assert Admits(page, i');
      }
    }
  }

  /** `rxState.FindSubmatch(page)` reduced to its capture group: None when the pattern
      does not match, otherwise the text of the first match's capture. */
  function Extract(page: string): (r: Option<string>)
    ensures r.None? <==> NoMatch(page)
    ensures r.Some? ==> |r.value| > 0 && NewlineFree(r.value)
    ensures r.Some? ==> exists i :: OccursAt(page, i, Open) && OccursAt(page, i + |Open|, r.value)
                                   && OccursAt(page, i + |Open| + |r.value|, Close)
    ensures r.Some? ==> exists i, j :: FirstMatch(page, i, j) && r.value == page[i + |Open|..j]
    ensures forall i, j :: FirstMatch(page, i, j) ==> r == Some(page[i + |Open|..j])
  {
    FirstMatchUnique(page);
    match FindStart(page, 0)
    case None => None
    case Some((i, j)) =>
      assert FirstMatch(page, i, j);
      Some(page[i + |Open|..j])
  }
}
