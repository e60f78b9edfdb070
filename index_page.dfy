/**
 * The public landing page: a three-view state machine (landing, create,
 * preview) over a profile draft, the draft's link edits, and the choice of
 * the icon shown beside each link in the preview.
 */
module IndexPage {
  import opened Links

  datatype View = Landing | Create | Preview

  /** The buttons that switch views. */
  datatype Action = CreateProfile | ShowPreview | Back | Edit

  /**
   * Where each button is rendered: "Create" on the landing view, "Back" and
   * "Preview" on the create view, "Edit" on the preview.
   */
  predicate Offered(v: View, a: Action)
    ensures Offered(v, a) ==> (v == Landing <==> a == CreateProfile) && (v == Preview <==> a == Edit)
    ensures Offered(v, a) && v == Create ==> a == ShowPreview || a == Back
  {
    match a
    case CreateProfile => v == Landing
    case ShowPreview => v == Create
    case Back => v == Create
    case Edit => v == Preview
  }

  /** Each button is on one view only, and the landing view and the preview have one button each. */
  lemma ButtonPlacement(v: View, w: View, a: Action, b: Action)
    requires Offered(v, a)
    ensures Offered(w, a) ==> w == v
    ensures Offered(v, b) && v != Create ==> b == a
    ensures Offered(v, b) && v == Create ==> b in {ShowPreview, Back}
  {
  }

  /**
   * The view after pressing `a` with the draft's name `name`: a button that
   * is not on screen changes nothing, Preview keeps the create view while the
   * name is empty, and every other button goes to its fixed target.
   */
  function Next(v: View, a: Action, name: string): (r: View)
    ensures !Offered(v, a) ==> r == v
    ensures Offered(v, a) && a == CreateProfile ==> r == Create
    ensures Offered(v, a) && a == ShowPreview ==> r == (if name == "" then Create else Preview)
    ensures Offered(v, a) && a == Back ==> r == Landing
    ensures Offered(v, a) && a == Edit ==> r == Create
  {
    if !Offered(v, a) then v
    else match a
      case CreateProfile => Create
      case ShowPreview => if name == "" then v else Preview
      case Back => Landing
      case Edit => Create
  }

  /** The preview is entered only from the create view, by Preview, with a non-empty name. */
  lemma PreviewNeedsName(v: View, a: Action, name: string)
    ensures Next(v, a, name) == Preview && v != Preview ==> v == Create && a == ShowPreview && name != ""
    ensures v == Create && a == ShowPreview && name == "" ==> Next(v, a, name) == Create
  {
  }

  /** Every view is reachable from the landing view, and Back and Edit undo the button that led there. */
  lemma Transitions(name: string)
    requires name != ""
    ensures Next(Landing, CreateProfile, name) == Create
    ensures Next(Next(Landing, CreateProfile, name), Back, name) == Landing
    ensures Next(Create, ShowPreview, name) == Preview
    ensures Next(Next(Create, ShowPreview, name), Edit, name) == Create
  {
  }

  /** A run of button presses, each with the name typed at that moment. */
  function Run(v: View, presses: seq<(Action, string)>): View
    decreases |presses|
  {
    if presses == [] then v else Run(Next(v, presses[0].0, presses[0].1), presses[1..])
  }

  /** A run of presses whose names are all empty never reaches the preview from another view. */
  lemma {:induction false} NoPreviewWithoutName(v: View, presses: seq<(Action, string)>)
    requires v != Preview
    requires forall k :: 0 <= k < |presses| ==> presses[k].1 == ""
    ensures Run(v, presses) != Preview
    decreases |presses|
  {
    if presses != [] {
      PreviewNeedsName(v, presses[0].0, presses[0].1);
      NoPreviewWithoutName(Next(v, presses[0].0, presses[0].1), presses[1..]);
    }
  }

  // ---------------------------------------------------------------------------
  // Link icons

  /** The icon components the preview can show. */
  datatype Icon = Instagram | Twitter | Facebook | Youtube | GenericLink

  /** `getIcon`: four brand names have their own icon, every other name the generic link icon. */
  function IconFor(iconName: string): (i: Icon)
    ensures i != GenericLink <==> iconName in ["instagram", "twitter", "facebook", "youtube"]
  {
    match iconName
    case "instagram" => Instagram
    case "twitter" => Twitter
    case "facebook" => Facebook
    case "youtube" => Youtube
    case _ => GenericLink
  }

  /** The name under which a brand icon is chosen. */
  function IconName(i: Icon): string {
    match i
    case Instagram => "instagram"
    case Twitter => "twitter"
    case Facebook => "facebook"
    case Youtube => "youtube"
    case GenericLink => DefaultIcon
  }

  /** Round trip: every icon is chosen by its own name, and a new link's default name shows the generic icon. */
  lemma IconRoundTrip(i: Icon)
    ensures IconFor(IconName(i)) == i
    ensures IconFor(DefaultIcon) == GenericLink
  {
  }

  /** What the preview prints for a link without a title. */
  const UntitledLink := "Untitled Link"

  /** `link.title || 'Untitled Link'`: what the preview prints for a link. */
  function ShownTitle(l: Link): (t: string)
    ensures t != ""
    ensures l.title != "" ==> t == l.title
    ensures l.title == "" ==> t == UntitledLink
  {
    if l.title != "" then l.title else UntitledLink
  }

  // ---------------------------------------------------------------------------
  // The page's state

  datatype ProfileDraft = ProfileDraft(name: string, bio: string, avatar: string, links: seq<Link>)

  const EmptyProfile := ProfileDraft("", "", "", [])

  class Page {
    var view: View
    var profile: ProfileDraft

    /** The preview is never shown for a nameless profile. */
    ghost predicate Valid()
      reads this
    {
      view == Preview ==> profile.name != ""
    }

    constructor ()
      ensures Valid() && view == Landing && profile == EmptyProfile
    {
      view := Landing;
      profile := EmptyProfile;
    }

    /** `handleCreateProfile`. */
    method CreateProfile()
      requires Valid() && view == Landing
      modifies this
      ensures Valid() && profile == old(profile)
      ensures view == Next(old(view), Action.CreateProfile, profile.name) && view == Create
    {
      view := Create;
    }

    /** `handlePreview`: refuses an empty name and stays on the create view. */
    method ShowPreview() returns (shown: bool)
      requires Valid() && view == Create
      modifies this
      ensures Valid() && profile == old(profile)
      ensures view == Next(old(view), Action.ShowPreview, profile.name)
      ensures shown <==> profile.name != ""
    {
      shown := profile.name != "";
      if shown {
        view := Preview;
      }
    }

    /** The create view's Back button. */
    method Back()
      requires Valid() && view == Create
      modifies this
      ensures Valid() && profile == old(profile)
      ensures view == Next(old(view), Action.Back, profile.name) && view == Landing
    {
      view := Landing;
    }

    /** The preview's Edit button. */
    method Edit()
      requires Valid() && view == Preview
      modifies this
      ensures Valid() && profile == old(profile)
      ensures view == Next(old(view), Action.Edit, profile.name) && view == Create
    {
      view := Create;
    }

    /** The name input of the create view. */
    method SetName(value: string)
      requires Valid() && view == Create
      modifies this
      ensures Valid() && view == old(view) && profile == old(profile).(name := value)
    {
      profile := profile.(name := value);
    }

    /** The bio input of the create view. */
    method SetBio(value: string)
      requires Valid() && view == Create
      modifies this
      ensures Valid() && view == old(view) && profile == old(profile).(bio := value)
    {
      profile := profile.(bio := value);
    }

    /** `addLink`. */
    method AddLink(id: string)
      requires Valid() && view == Create
      modifies this
      ensures Valid() && view == old(view)
      ensures profile == old(profile).(links := Links.AddLink(old(profile.links), id))
    {
      profile := profile.(links := Links.AddLink(profile.links, id));
    }

    /** `updateLink`. */
    method UpdateLink(id: string, field: LinkField, value: string)
      requires Valid() && view == Create
      modifies this
      ensures Valid() && view == old(view)
      ensures profile == old(profile).(links := Links.UpdateLink(old(profile.links), id, field, value))
    {
      profile := profile.(links := Links.UpdateLink(profile.links, id, field, value));
    }

    /** `removeLink`. */
    method RemoveLink(id: string)
      requires Valid() && view == Create
      modifies this
      ensures Valid() && view == old(view)
      ensures profile == old(profile).(links := Links.RemoveLink(old(profile.links), id))
    {
      profile := profile.(links := Links.RemoveLink(profile.links, id));
    }
  }
}
