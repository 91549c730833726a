/**
 * The state list of the national portal and the district list of a state page: anchors
 * filtered by their `href` and trimmed text.
 */
module Links {
  import opened Text
  import opened Js
  import opened Collecting

  /** One `<a>` element: `attr('href')` (missing when absent) and `text()`. */
  datatype Anchor = Anchor(href: Option<string>, text: string)

  /** `{ name, link }` as sent to the client. */
  datatype Link = Link(name: string, link: string)

  const StatePrefix := "https://ecourts.gov.in/ecourts_home/"
  const DistrictHost := ".dcourts.gov.in"

  /** `link && name && !name.includes('More')` on the anchors of the state links. */
  predicate IsStateAnchor(a: Anchor) {
    a.href.Some? && a.href.value != "" && Trim(a.text) != "" && !Contains(Trim(a.text), "More")
  }

  function HrefOf(a: Anchor): string {
    if a.href.Some? then a.href.value else ""
  }

  /** The stored state: its trimmed name and the portal-relative link made absolute. */
  function StateLink(a: Anchor): Link {
    Link(Trim(a.text), StatePrefix + HrefOf(a))
  }

  /** `link && link.includes('.dcourts.gov.in') && name.length > 2`, the length counted in
      UTF-16 code units. */
  predicate IsDistrictAnchor(a: Anchor) {
    a.href.Some? && a.href.value != "" && Contains(a.href.value, DistrictHost) && Utf16Length(Trim(a.text)) > 2
  }

  /** The stored district: its trimmed name and the link as found. */
  function DistrictLink(a: Anchor): Link {
    Link(Trim(a.text), HrefOf(a))
  }

  function KeepState(): Anchor -> bool {
    a => IsStateAnchor(a)
  }

  function KeepDistrict(): Anchor -> bool {
    a => IsDistrictAnchor(a)
  }

  /** The `.each` loop over the state anchors. Every state it returns has a non-empty trimmed
      name without `More` and a link under the portal's home. */
  method ListStates(anchors: seq<Anchor>) returns (states: seq<Link>)
    ensures states == Collect(anchors, KeepState(), StateLink)
    ensures forall s :: s in states ==>
      s.name != "" && Trimmed(s.name) && !Contains(s.name, "More")
      && StatePrefix <= s.link && |s.link| > |StatePrefix|
  {
    states := [];
    var i := 0;
    while i < |anchors|
      invariant 0 <= i <= |anchors|
      invariant states == Collect(anchors[..i], KeepState(), StateLink)
    {
      var a := anchors[i];
      assert anchors[..i + 1] == anchors[..i] + [a];
      CollectSnoc(anchors[..i], a, KeepState(), StateLink);
      if IsStateAnchor(a) {
        states := states + [Link(Trim(a.text), StatePrefix + a.href.value)];
      }
      i := i + 1;
    }
    assert anchors[..i] == anchors;
    StatesWellFormed(anchors);
  }

  /** The `.each` loop over all anchors of a state page. Every district it returns links to a
      district court site and has a name of more than two UTF-16 code units. */
  method ListDistricts(anchors: seq<Anchor>) returns (districts: seq<Link>)
    ensures districts == Collect(anchors, KeepDistrict(), DistrictLink)
    ensures forall d :: d in districts ==>
      Contains(d.link, DistrictHost) && Utf16Length(d.name) > 2 && Trimmed(d.name)
  {
    districts := [];
    var i := 0;
    while i < |anchors|
      invariant 0 <= i <= |anchors|
      invariant districts == Collect(anchors[..i], KeepDistrict(), DistrictLink)
    {
      var a := anchors[i];
      assert anchors[..i + 1] == anchors[..i] + [a];
      CollectSnoc(anchors[..i], a, KeepDistrict(), DistrictLink);
      if IsDistrictAnchor(a) {
        districts := districts + [Link(Trim(a.text), a.href.value)];
      }
      i := i + 1;
    }
    assert anchors[..i] == anchors;
    DistrictsWellFormed(anchors);
  }

  /** A state is listed exactly when some anchor passes the filter and yields it. */
  lemma StateListedIff(anchors: seq<Anchor>, s: Link)
    ensures s in Collect(anchors, KeepState(), StateLink) <==>
      exists i :: 0 <= i < |anchors| && IsStateAnchor(anchors[i])
        && s == Link(Trim(anchors[i].text), StatePrefix + anchors[i].href.value)
  {
    CollectMembers(anchors, KeepState(), StateLink, s);
  }

  /** A district is listed exactly when some anchor passes the filter and yields it. */
  lemma DistrictListedIff(anchors: seq<Anchor>, d: Link)
    ensures d in Collect(anchors, KeepDistrict(), DistrictLink) <==>
      exists i :: 0 <= i < |anchors| && IsDistrictAnchor(anchors[i])
        && d == Link(Trim(anchors[i].text), anchors[i].href.value)
  {
    CollectMembers(anchors, KeepDistrict(), DistrictLink, d);
  }

  lemma StatesWellFormed(anchors: seq<Anchor>)
    ensures forall s :: s in Collect(anchors, KeepState(), StateLink) ==>
      s.name != "" && Trimmed(s.name) && !Contains(s.name, "More")
      && StatePrefix <= s.link && |s.link| > |StatePrefix|
  {
    forall s | s in Collect(anchors, KeepState(), StateLink)
      ensures s.name != "" && Trimmed(s.name) && !Contains(s.name, "More")
      ensures StatePrefix <= s.link && |s.link| > |StatePrefix|
    {
      StateListedIff(anchors, s);
      var i :| 0 <= i < |anchors| && IsStateAnchor(anchors[i])
        && s == Link(Trim(anchors[i].text), StatePrefix + anchors[i].href.value);
      assert (StatePrefix + anchors[i].href.value)[..|StatePrefix|] == StatePrefix;
    }
  }

  lemma DistrictsWellFormed(anchors: seq<Anchor>)
    ensures forall d :: d in Collect(anchors, KeepDistrict(), DistrictLink) ==>
      Contains(d.link, DistrictHost) && Utf16Length(d.name) > 2 && Trimmed(d.name)
  {
    forall d | d in Collect(anchors, KeepDistrict(), DistrictLink)
      ensures Contains(d.link, DistrictHost) && Utf16Length(d.name) > 2 && Trimmed(d.name)
    {
      DistrictListedIff(anchors, d);
    }
  }

  /** Two astral characters already make a name of length 4, so such a name is kept although it
      holds only two characters. */
  lemma AstralNameIsLongEnough(a: Anchor)
    requires a == Anchor(Some("https://x.dcourts.gov.in/"), "\U{1F3DB}\U{1F3DB}")
    ensures IsDistrictAnchor(a)
  {
    TrimOfTrimmed(a.text);
    assert Utf16Length(a.text) == 4;
    var href := a.href.value;
    assert href[9..9 + |DistrictHost|] == DistrictHost;
    ContainsAt(href, DistrictHost, 9);
  }
}
