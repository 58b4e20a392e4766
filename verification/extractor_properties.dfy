/** Properties of `StateExtractor.Extract`: the round trip for a page built around one
    payload, and the edge cases of the pattern (no marker, empty capture, a closing tag
    right after the opening tag, a line feed in the payload). */
module ExtractorProperties {
  import opened Wrappers
  import opened StateExtractor

  /** `pat` begins with '<' and contains no other '<'. */
  predicate AngleOnlyFirst(pat: string)
  {
    |pat| > 0 && pat[0] == '<' && forall k :: 0 < k < |pat| ==> pat[k] != '<'
  }

  /** `s` contains no '<'. */
  predicate NoAngle(s: string)
  {
    forall k :: 0 <= k < |s| ==> s[k] != '<'
  }

  /** Concatenating two strings without '<' gives one without '<'. */
  lemma NoAngleConcat(a: string, b: string)
    requires NoAngle(a) && NoAngle(b)
    ensures NoAngle(a + b)
  {
    assert forall k :: |a| <= k < |a + b| ==> (a + b)[k] == b[k - |a|];
  }

  /** Both markers of the pattern carry their only '<' in front. */
  lemma MarkersAngleOnlyFirst()
    ensures AngleOnlyFirst(Open) && AngleOnlyFirst(Close)
  {
    assert NoAngle("script");
    assert NoAngle(IdAttribute);
    assert NoAngle(TypeAttribute);
    NoAngleConcat("script", IdAttribute);
    NoAngleConcat("script" + IdAttribute, TypeAttribute);
    assert Open == "<" + ("script" + IdAttribute + TypeAttribute);
    assert NoAngle(Close[1..]);
  }

  /** A marker whose only '<' is in front cannot occur over a '<' that lies strictly
      inside the span it would cover. */
  lemma NotOverAngle(text: string, pat: string, a: int, b: int)
    requires AngleOnlyFirst(pat)
    requires 0 <= a < b < a + |pat| && b < |text| && text[b] == '<'
    ensures !OccursAt(text, a, pat)
  {
    if a + |pat| <= |text| {
      assert text[a..a + |pat|][b - a] == '<';
    }
  }

  /** The match that a page built around one payload `p` reports: it starts at the
      opening marker after `prefix` and its capture is exactly `p`. */
  lemma {:induction false} SinglePayloadFirstMatch(prefix: string, p: string, rest: string)
    requires forall i :: !OccursAt(prefix, i, Open)
    requires |p| > 0 && NewlineFree(p)
    requires forall k :: 1 <= k ==> !OccursAt(p, k, Close)
    ensures FirstMatch(prefix + Open + p + Close + rest, |prefix|, |prefix| + |Open| + |p|)
  {
    var page := prefix + Open + p + Close + rest;
    var i0 := |prefix|;
    var s := i0 + |Open|;
    var j0 := s + |p|;
    assert page[i0..s] == Open;
    assert page[s..j0] == p;
    assert page[j0..j0 + |Close|] == Close;
    assert MatchAt(page, i0, j0);
    MarkersAngleOnlyFirst();
    assert page[i0] == '<' && page[j0] == '<';
    forall i' | 0 <= i' < i0
      ensures !OccursAt(page, i', Open)
    {
      if i' + |Open| <= i0 {
        assert page[i'..i' + |Open|] == prefix[i'..i' + |Open|];
        assert !OccursAt(prefix, i', Open);
      } else {
        NotOverAngle(page, Open, i', i0);
      }
    }
    forall j' | s < j' < j0
      ensures !OccursAt(page, j', Close)
    {
      if j' + |Close| <= j0 {
        assert page[j'..j' + |Close|] == p[j' - s..j' - s + |Close|];
        assert !OccursAt(p, j' - s, Close);
      } else {
        NotOverAngle(page, Close, j', j0);
      }
    }
  }

  /** Round trip: when no opening marker occurs in `prefix`, and `p` is a non-empty,
      line-feed-free payload in which no closing tag starts after its first character,
      the page `prefix + Open + p + Close + rest` yields exactly `p`, whatever `rest`
      holds (further markers included). */
  lemma ExtractRoundTrip(prefix: string, p: string, rest: string)
    requires forall i :: !OccursAt(prefix, i, Open)
    requires |p| > 0 && NewlineFree(p)
    requires forall k :: 1 <= k ==> !OccursAt(p, k, Close)
    ensures Extract(prefix + Open + p + Close + rest) == Some(p)
  {
    var page := prefix + Open + p + Close + rest;
    SinglePayloadFirstMatch(prefix, p, rest);
    assert page[|prefix| + |Open|..|prefix| + |Open| + |p|] == p;
  }

  /** A page without the opening marker yields no payload. */
  lemma NoMarkerNoPayload(page: string)
    requires forall i :: !OccursAt(page, i, Open)
    ensures Extract(page) == None
  {
  }

  /** `.+?` needs at least one character: an opening marker directly followed by the
      closing tag, and nothing else, does not match. */
  lemma EmptyCaptureRejected()
    ensures Extract(Open + Close) == None
  {
  }

  /** A closing tag right after the opening marker cannot end the capture (it would be
      empty), so the capture runs to the next closing tag and starts with `</script>`. */
  lemma CloseRightAfterOpen()
    ensures Extract(Open + Close + Close) == Some(Close)
  {
    MarkersAngleOnlyFirst();
    assert NewlineFree(Close);
    ExtractRoundTrip("", Close, "");
    assert "" + Open + Close + Close + "" == Open + Close + Close;
  }

  /** A line feed cannot be part of the capture: a payload consisting of a line feed
      is not found. */
  lemma NewlineInPayloadRejected()
    ensures Extract(Open + "\n" + Close) == None
  {
    var page := Open + "\n" + Close;
    MarkersAngleOnlyFirst();
    forall i, j
      ensures !MatchAt(page, i, j)
    {
      if 0 < i && i + |Open| <= |page| {
        assert page[i..i + |Open|][0] == Open[i];
      }
      if i == 0 && j == |Open| + 1 {
        assert page[|Open|..j][0] == '\n';
      }
    }
  }
}
