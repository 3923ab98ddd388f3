/** The rule behind the scroll handler of initActiveNavLink(): the current
    section is the last one, in document order, whose top lies at most 200
    pixels below the scroll position, and the nav links whose href without
    its first character equals that section's id are highlighted. */
module ActiveNav {

  import opened Wrappers

  /** A <section>: its id attribute (null when it has none) and offsetTop. */
  datatype Section = Section(id: Option<string>, top: int)

  /** How far below the scroll position a section may start and still count
      as reached. */
  const ScrollOffset: int := 200

  predicate Reached(s: Section, scrollY: real) {
    scrollY >= (s.top - ScrollOffset) as real
  }

  /** The index of the last reached section, or -1 when none is reached. */
  function LastReached(sections: seq<Section>, scrollY: real): (k: int)
    ensures -1 <= k < |sections|
    ensures k >= 0 ==> Reached(sections[k], scrollY)
    ensures forall m :: k < m < |sections| ==> !Reached(sections[m], scrollY)
    decreases |sections|
  {
    if sections == [] then -1
    else if Reached(sections[|sections| - 1], scrollY) then |sections| - 1
    else LastReached(sections[..|sections| - 1], scrollY)
  }

  /** The final value of `current`: the empty string when no section is
      reached, else the id of the last reached one (None for a null id). */
  function Current(sections: seq<Section>, scrollY: real): (current: Option<string>)
    ensures LastReached(sections, scrollY) < 0 ==> current == Some("")
    ensures LastReached(sections, scrollY) >= 0 ==>
              exists k :: 0 <= k < |sections| && Reached(sections[k], scrollY) &&
                current == sections[k].id &&
                forall m :: k < m < |sections| ==> !Reached(sections[m], scrollY)
  {
    var k := LastReached(sections, scrollY);
    if k < 0 then Some("") else sections[k].id
  }

  /** The scroll handler's loop over the sections. */
  method ScrollCurrent(sections: seq<Section>, scrollY: real) returns (current: Option<string>)
    ensures current == Current(sections, scrollY)
  {
    current := Some("");
    for k := 0 to |sections|
      invariant current == Current(sections[..k], scrollY)
    {
      assert sections[..k + 1][..k] == sections[..k];
      if scrollY >= (sections[k].top - ScrollOffset) as real {
        current := sections[k].id;
      }
    }
    assert sections[..|sections|] == sections;
  }

  /** `s.slice(1)`: everything after the first character; empty stays empty. */
  function DropFirst(s: string): (rest: string)
    ensures |s| == 0 ==> rest == ""
    ensures |s| > 0 ==> [s[0]] + rest == s
  {
    if |s| == 0 then s else s[1..]
  }

  /** A link is highlighted when its href without the first character equals
      `current` (strict equality, so a null id matches no link). */
  predicate Highlighted(href: string, current: Option<string>) {
    current == Some(DropFirst(href))
  }

  /** The scroll handler's loop over the nav links: which are highlighted. */
  method HighlightLinks(hrefs: seq<string>, current: Option<string>) returns (highlighted: seq<bool>)
    ensures |highlighted| == |hrefs|
    ensures forall k :: 0 <= k < |hrefs| ==> (highlighted[k] <==> Highlighted(hrefs[k], current))
  {
    highlighted := [];
    for k := 0 to |hrefs|
      invariant |highlighted| == k
      invariant forall m :: 0 <= m < k ==> (highlighted[m] <==> Highlighted(hrefs[m], current))
    {
      highlighted := highlighted + [current == Some(DropFirst(hrefs[k]))];
    }
  }

  /** Scrolling further down never selects an earlier section. */
  lemma {:induction false} LastReachedMonotone(sections: seq<Section>, y1: real, y2: real)
    requires y1 <= y2
    ensures LastReached(sections, y1) <= LastReached(sections, y2)
    decreases |sections|
  {
    if sections != [] && !Reached(sections[|sections| - 1], y2) {
      LastReachedMonotone(sections[..|sections| - 1], y1, y2);
    }
  }

  predicate TopsAscending(sections: seq<Section>) {
    forall a, b :: 0 <= a < b < |sections| ==> sections[a].top <= sections[b].top
  }

  /** With the sections laid out top to bottom, section k is current exactly
      while the scroll position lies in the band from 200 pixels above its top
      to 200 pixels above the next section's top. */
  lemma SectionInBandIsCurrent(sections: seq<Section>, scrollY: real, k: nat)
    requires TopsAscending(sections) && k < |sections|
    ensures LastReached(sections, scrollY) == k <==>
              Reached(sections[k], scrollY) && (k + 1 < |sections| ==> !Reached(sections[k + 1], scrollY))
  {
  }

  /** At the top of the page, before any section is reached, `current` is the
      empty string, so exactly the links whose href has at most one character
      (such as a bare "#") are highlighted. */
  lemma NothingReachedHighlightsBareLinks(sections: seq<Section>, scrollY: real, href: string)
    requires forall k :: 0 <= k < |sections| ==> !Reached(sections[k], scrollY)
    ensures Highlighted(href, Current(sections, scrollY)) <==> |href| <= 1
  {
    assert Current(sections, scrollY) == Some("");
    if |href| <= 1 {
      assert DropFirst(href) == "";
    } else {
      assert |DropFirst(href)| > 0;
    }
  }

  /** Among links of the usual "#id" form with distinct hrefs, at most one is
      highlighted. */
  lemma {:induction false} AtMostOneHighlighted(hrefs: seq<string>, current: Option<string>, a: nat, b: nat)
    requires forall k :: 0 <= k < |hrefs| ==> |hrefs[k]| > 0 && hrefs[k][0] == '#'
    requires forall m, n :: 0 <= m < n < |hrefs| ==> hrefs[m] != hrefs[n]
    requires a < |hrefs| && b < |hrefs|
    requires Highlighted(hrefs[a], current) && Highlighted(hrefs[b], current)
    ensures a == b
  {
    var x, y := hrefs[a], hrefs[b];
    assert x == [x[0]] + x[1..];
    assert y == [y[0]] + y[1..];
    assert x == y;
  }
}
