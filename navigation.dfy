/** The scroll spy of the navigation bar: the current section is the last
    section, in document order, whose top is at most 150 pixels below the
    viewport's top, and exactly the links whose href is "#" followed by that
    section's id are marked active. */
module Navigation {

  datatype Option<T> = None | Some(value: T)

  /** A <section>: its id attribute (None when absent) and the top of its
      bounding rectangle. */
  datatype Section = Section(id: Option<string>, top: real)

  /** A .nav-link: its href attribute (None when absent) and whether it has
      the "active" class. */
  datatype NavLink = NavLink(href: Option<string>, active: bool)

  const Threshold: real := 150.0

  /** The id as a template literal writes it: an absent attribute is null
      and reads as "null". */
  function IdText(id: Option<string>): string
  {
    match id
    case None => "null"
    case Some(s) => s
  }

  predicate Qualifies(s: Section)
  {
    s.top <= Threshold
  }

  /** The current section's id: that of the last qualifying section, or ""
      when none qualifies. */
  function CurrentSectionId(sections: seq<Section>): string
  {
    if sections == [] then ""
    else if Qualifies(sections[|sections| - 1]) then IdText(sections[|sections| - 1].id)
    else CurrentSectionId(sections[..|sections| - 1])
  }

  /** k is the last qualifying section. */
  ghost predicate LastQualifying(sections: seq<Section>, k: nat)
  {
    && k < |sections| && Qualifies(sections[k])
    && forall j :: k < j < |sections| ==> !Qualifies(sections[j])
  }

  /** With no section at or above the threshold the current id is "". */
  lemma {:induction false} NoneQualifies(sections: seq<Section>)
    requires forall j :: 0 <= j < |sections| ==> !Qualifies(sections[j])
    ensures CurrentSectionId(sections) == ""
  {
    if sections != [] {
      NoneQualifies(sections[..|sections| - 1]);
    }
  }

  /** Otherwise it is the id of the last qualifying section. */
  lemma {:induction false} LastQualifyingWins(sections: seq<Section>, k: nat)
    requires LastQualifying(sections, k)
    ensures CurrentSectionId(sections) == IdText(sections[k].id)
  {
    if k < |sections| - 1 {
      var init := sections[..|sections| - 1];
      assert LastQualifying(init, k);
      LastQualifyingWins(init, k);
    }
  }

  /** The loop over the sections, overwriting the current id whenever a
      section qualifies. */
  method CurrentSection(sections: seq<Section>) returns (current: string)
    ensures current == CurrentSectionId(sections)
  {
    current := "";
    for i := 0 to |sections|
      invariant current == CurrentSectionId(sections[..i])
    {
      assert sections[..i + 1][..i] == sections[..i];
      if Qualifies(sections[i]) {
        current := IdText(sections[i].id);
      }
    }
    assert sections[..|sections|] == sections;
  }

  /** Whether a link matches the current id: its href equals "#" + id; an
      absent href (null) never equals a string. */
  predicate Matches(link: NavLink, current: string)
  {
    link.href == Some("#" + current)
  }

  /** The links after the update: every "active" class is removed and put
      back on exactly the matching links. */
  function Marked(links: seq<NavLink>, current: string): (r: seq<NavLink>)
    ensures |r| == |links|
    ensures forall k :: 0 <= k < |r| ==> r[k].href == links[k].href
    ensures forall k :: 0 <= k < |r| ==> (r[k].active <==> Matches(links[k], current))
  {
    seq(|links|, k requires 0 <= k < |links| => NavLink(links[k].href, Matches(links[k], current)))
  }

  ghost predicate DistinctHrefs(links: seq<NavLink>)
  {
    forall i, j :: 0 <= i < |links| && 0 <= j < |links| && i != j && links[i].href != None ==>
      links[i].href != links[j].href
  }

  ghost predicate AtMostOneActive(links: seq<NavLink>)
  {
    forall i, j :: 0 <= i < |links| && 0 <= j < |links| && links[i].active && links[j].active ==> i == j
  }

  /** With pairwise different hrefs, at most one link ends up active. */
  lemma DistinctHrefsOneActive(links: seq<NavLink>, current: string)
    requires DistinctHrefs(links)
    ensures AtMostOneActive(Marked(links, current))
  {
  }

  /** The marking depends only on the current id, not on the old classes:
      updating twice gives the same links as updating once. */
  lemma MarkedIdempotent(links: seq<NavLink>, current: string)
    ensures Marked(Marked(links, current), current) == Marked(links, current)
  {
  }

  /** When no section qualifies, the link whose href is the bare "#" is the
      one marked active. */
  lemma {:induction false} BareHashActiveAtTop(sections: seq<Section>, links: seq<NavLink>, k: nat)
    requires forall j :: 0 <= j < |sections| ==> !Qualifies(sections[j])
    requires k < |links| && links[k].href == Some("#")
    ensures Marked(links, CurrentSectionId(sections))[k].active
  {
    NoneQualifies(sections);
    assert "#" + "" == "#";
  }

  /** A qualifying section without an id makes "#null" the current link. */
  lemma {:induction false} MissingIdReadsNull(sections: seq<Section>, k: nat, links: seq<NavLink>, m: nat)
    requires LastQualifying(sections, k) && sections[k].id == None
    requires m < |links| && links[m].href == Some("#null")
    ensures Marked(links, CurrentSectionId(sections))[m].active
  {
    LastQualifyingWins(sections, k);
    assert "#" + "null" == "#null";
  }

  /** The navigation links whose classes updateActiveNavLink rewrites. */
  class NavBar {
    var links: array<NavLink>

    constructor (initial: seq<NavLink>)
      ensures fresh(links) && links[..] == initial
    {
      links := new NavLink[|initial|](k requires 0 <= k < |initial| => initial[k]);
    }

    /** updateActiveNavLink: find the current section, then rewrite the
        "active" class of every link. */
    method UpdateActiveNavLink(sections: seq<Section>)
      modifies links
      ensures links[..] == Marked(old(links[..]), CurrentSectionId(sections))
    {
      var current := CurrentSection(sections);
      ghost var before := links[..];
      for k := 0 to links.Length
        invariant forall m :: 0 <= m < k ==> links[m] == NavLink(before[m].href, Matches(before[m], current))
        invariant forall m :: k <= m < links.Length ==> links[m] == before[m]
      {
        var link := links[k];
        link := link.(active := false);
        if Matches(link, current) {
          link := link.(active := true);
        }
        links[k] := link;
      }
    }
  }
}
