/**
 * The outbound-link list edits that the dashboard, the landing page and the
 * invitation manager each perform on their own list: append a blank link,
 * set one field of the links with a given id, remove the links with a given
 * id, and keep only the complete links when an invitation is created.
 *
 * `Date.now().toString()`, the id of a new link, is a parameter.
 */
module Links {
  import opened Seqs

  /** A link; the invitation manager's links also carry a description, the profile links do not. */
  datatype Link = Link(id: string, title: string, url: string, icon: string, description: Option<string>)

  /** The fields the edit forms pass to the update handlers. */
  datatype LinkField = Title | Url | Icon

  const DefaultIcon := "link"

  function Get(l: Link, f: LinkField): string {
    match f
    case Title => l.title
    case Url => l.url
    case Icon => l.icon
  }

  /** `{ ...link, [field]: value }`. */
  function SetField(l: Link, f: LinkField, value: string): (r: Link)
    ensures r.id == l.id && r.description == l.description
    ensures forall g :: Get(r, g) == if g == f then value else Get(l, g)
  {
    match f
    case Title => l.(title := value)
    case Url => l.(url := value)
    case Icon => l.(icon := value)
  }

  /** The dashboard's and the landing page's `addLink`: one blank link at the end. */
  function AddLink(links: seq<Link>, id: string): (r: seq<Link>)
    ensures |r| == |links| + 1 && r[..|links|] == links
    ensures r[|links|] == Link(id, "", "", DefaultIcon, None)
  {
    links + [Link(id, "", "", DefaultIcon, None)]
  }

  /** The invitation manager's `addLinkToInvite`: a blank link with an empty description at the end. */
  function AddInviteLink(links: seq<Link>, id: string): (r: seq<Link>)
    ensures |r| == |links| + 1 && r[..|links|] == links
    ensures r[|links|] == Link(id, "", "", DefaultIcon, Some(""))
  {
    links + [Link(id, "", "", DefaultIcon, Some(""))]
  }

  /**
   * `updateLink(id, field, value)`: the list keeps its length and its ids, and
   * the only value that changes is `field` of the links whose id is `id`.
   */
  function UpdateLink(links: seq<Link>, id: string, field: LinkField, value: string): (r: seq<Link>)
    ensures |r| == |links|
    ensures forall i :: 0 <= i < |r| ==> r[i].id == links[i].id && r[i].description == links[i].description
    ensures forall i, g :: 0 <= i < |r| ==>
              Get(r[i], g) == if links[i].id == id && g == field then value else Get(links[i], g)
  {
    seq(|links|, i requires 0 <= i < |links| =>
      if links[i].id == id then SetField(links[i], field, value) else links[i])
  }

  function CountId(links: seq<Link>, id: string): nat
    decreases |links|
  {
    if links == [] then 0 else (if links[0].id == id then 1 else 0) + CountId(links[1..], id)
  }

  /**
   * `removeLink(id)`: every link with that id goes, every other link stays,
   * in its original order.
   */
  function RemoveLink(links: seq<Link>, id: string): (r: seq<Link>)
    ensures IsSubsequence(r, links)
    ensures forall l :: l in r <==> l in links && l.id != id
    ensures |r| == |links| - CountId(links, id)
  {
    RemoveLinkLength(links, id);
    Filter(links, (l: Link) => l.id != id)
  }

  lemma {:induction false} RemoveLinkLength(links: seq<Link>, id: string)
    ensures |Filter(links, (l: Link) => l.id != id)| == |links| - CountId(links, id)
    decreases |links|
  {
    if links != [] {
      RemoveLinkLength(links[1..], id);
    }
  }

  /** Updating the same field to the same value twice is the same as once. */
  lemma UpdateLinkIdempotent(links: seq<Link>, id: string, field: LinkField, value: string)
    ensures UpdateLink(UpdateLink(links, id, field, value), id, field, value) == UpdateLink(links, id, field, value)
  {
  }

  /** Removing a link just added with a fresh id gives the list back. */
  lemma RemoveUndoesAdd(links: seq<Link>, id: string)
    requires forall i :: 0 <= i < |links| ==> links[i].id != id
    ensures RemoveLink(AddLink(links, id), id) == links
    ensures RemoveLink(AddInviteLink(links, id), id) == links
  {
    var p := (l: Link) => l.id != id;
    FilterConcat(links, [Link(id, "", "", DefaultIcon, None)], p);
    FilterConcat(links, [Link(id, "", "", DefaultIcon, Some(""))], p);
    FilterAll(links, p);
  }

  /** An edit to links that are then removed leaves no trace. */
  lemma {:induction false} RemoveAfterUpdate(links: seq<Link>, id: string, field: LinkField, value: string)
    ensures RemoveLink(UpdateLink(links, id, field, value), id) == RemoveLink(links, id)
    decreases |links|
  {
    if links != [] {
      var u := UpdateLink(links, id, field, value);
      assert u[1..] == UpdateLink(links[1..], id, field, value);
      RemoveAfterUpdate(links[1..], id, field, value);
    }
  }

  lemma RemoveLinkCons(x: Link, xs: seq<Link>, id: string)
    ensures RemoveLink([x] + xs, id) == (if x.id != id then [x] else []) + RemoveLink(xs, id)
  {
    assert ([x] + xs)[1..] == xs;
  }

  lemma UpdateLinkConcat(xs: seq<Link>, ys: seq<Link>, id: string, field: LinkField, value: string)
    ensures UpdateLink(xs + ys, id, field, value) == UpdateLink(xs, id, field, value) + UpdateLink(ys, id, field, value)
  {
  }

  /** An edit of a link with another id commutes with the removal. */
  lemma {:induction false} RemoveCommutesWithOtherUpdate(links: seq<Link>, id: string, other: string, field: LinkField, value: string)
    requires other != id
    ensures RemoveLink(UpdateLink(links, other, field, value), id) == UpdateLink(RemoveLink(links, id), other, field, value)
    decreases |links|
  {
    if links != [] {
      var x, xs := links[0], links[1..];
      assert links == [x] + xs;
      RemoveCommutesWithOtherUpdate(xs, id, other, field, value);
      UpdateLinkConcat([x], xs, other, field, value);
      var ux := UpdateLink([x], other, field, value);
      assert ux == [ux[0]] && ux[0].id == x.id;
      RemoveLinkCons(ux[0], UpdateLink(xs, other, field, value), id);
      RemoveLinkCons(x, xs, id);
      var kept := if x.id != id then [x] else [];
      UpdateLinkConcat(kept, RemoveLink(xs, id), other, field, value);
    }
  }

  predicate IsComplete(l: Link) {
    l.title != "" && l.url != ""
  }

  /**
   * `links.filter(link => link.title && link.url)`: the links saved with a new
   * invitation are exactly the drafted links with a title and a URL, in order.
   */
  function CompleteLinks(links: seq<Link>): (r: seq<Link>)
    ensures IsSubsequence(r, links)
    ensures forall l :: l in r <==> l in links && l.title != "" && l.url != ""
    ensures forall l :: IsComplete(l) ==> multiset(r)[l] == multiset(links)[l]
  {
    Filter(links, IsComplete)
  }

  /** Keeping the complete links twice is keeping them once. */
  lemma CompleteLinksIdempotent(links: seq<Link>)
    ensures CompleteLinks(CompleteLinks(links)) == CompleteLinks(links)
  {
    var r := CompleteLinks(links);
    FilterAll(r, IsComplete);
  }
}
