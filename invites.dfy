/**
 * The invitation manager: the draft of a new invitation (title, description,
 * links, theme, a catalogue of at most five items), the list of the user's
 * invitations, and the CSV export of an invitation's analytics events.
 *
 * The backend's answers (the stored rows, whether an insert or a delete
 * failed) and the signed-in user are parameters of the operations that
 * depend on them; `toLocaleString` of a timestamp is the parameter
 * `localTime`.
 */
module Invites {
  import opened Seqs
  import opened JsText
  import opened Links
  import Analytics

  datatype Theme = Theme(primaryColor: string, backgroundColor: string, font: string, logo: string)

  const DefaultTheme := Theme("#f59e42", "#1e293b", "sans-serif", "")

  datatype ThemeField = PrimaryColor | BackgroundColor | Font | Logo

  datatype CatalogueItem = CatalogueItem(title: string, image: string, description: string, price: string, link: string)

  const BlankItem := CatalogueItem("", "", "", "", "")

  datatype ItemField = ItemTitle | ItemImage | ItemDescription | ItemPrice | ItemLink

  /** The create form offers "+ Add Catalogue Item" only below this many items. */
  const MaxCatalogue := 5

  datatype Draft = Draft(title: string, description: string, links: seq<Link>, theme: Theme, catalogue: seq<CatalogueItem>)

  const EmptyDraft := Draft("", "", [], DefaultTheme, [])

  /**
   * One invitation of the list. The list holds the stored rows spread as they
   * are; the insert stores the flag under `is_active`, so `isActive` may be
   * absent (`None`), and JavaScript reads an absent flag as false.
   */
  datatype Invitation = Invitation(id: string, title: string, description: string, links: seq<Link>, isActive: Option<bool>)

  /** The row `createInviteLink` inserts. */
  datatype InsertRequest = InsertRequest(userId: string, title: string, description: string, links: seq<Link>, isActive: bool)

  datatype InsertResponse = InsertFailed | InsertSucceeded(rows: seq<Invitation>)

  // ---------------------------------------------------------------------------
  // Status toggle

  /** The truth value JavaScript gives the flag. */
  predicate Truthy(flag: Option<bool>) {
    flag == Some(true)
  }

  /** `!link.isActive`: an absent flag becomes true. */
  function Flip(flag: Option<bool>): (r: Option<bool>)
    ensures r.Some? && (Truthy(r) <==> !Truthy(flag))
  {
    Some(!Truthy(flag))
  }

  /**
   * `toggleInviteStatus(id)`: the invitations with that id flip their status,
   * every other invitation and every other property stays as it was.
   */
  function ToggleStatus(invites: seq<Invitation>, id: string): (r: seq<Invitation>)
    ensures |r| == |invites|
    ensures forall i :: 0 <= i < |r| ==> r[i] == invites[i].(isActive := r[i].isActive)
    ensures forall i :: 0 <= i < |r| ==> (Truthy(r[i].isActive) <==> (Truthy(invites[i].isActive) != (invites[i].id == id)))
    ensures forall i :: 0 <= i < |r| && invites[i].id == id ==> r[i].isActive == Flip(invites[i].isActive)
    ensures forall i :: 0 <= i < |r| && invites[i].id != id ==> r[i] == invites[i]
  {
    seq(|invites|, i requires 0 <= i < |invites| =>
      if invites[i].id == id then invites[i].(isActive := Flip(invites[i].isActive)) else invites[i])
  }

  /** Toggling twice shows every invitation with the status it had. */
  lemma ToggleTwiceStatus(invites: seq<Invitation>, id: string)
    ensures var r := ToggleStatus(ToggleStatus(invites, id), id);
      forall i :: 0 <= i < |r| ==> (Truthy(r[i].isActive) <==> Truthy(invites[i].isActive))
  {
  }

  /** Once the toggled invitations carry the flag, toggling twice gives the list back. */
  lemma ToggleTwice(invites: seq<Invitation>, id: string)
    requires forall i :: 0 <= i < |invites| && invites[i].id == id ==> invites[i].isActive.Some?
    ensures ToggleStatus(ToggleStatus(invites, id), id) == invites
  {
    var r := ToggleStatus(ToggleStatus(invites, id), id);
    forall i | 0 <= i < |invites|
      ensures r[i] == invites[i]
    {
      if invites[i].id == id {
        var flag := invites[i].isActive;
        var once := ToggleStatus(invites, id);
        assert once[i] == invites[i].(isActive := Flip(flag));
        assert r[i] == once[i].(isActive := Flip(Flip(flag)));
        assert flag.Some?;
        if flag.value {
          assert Flip(flag) == Some(false);
        } else {
          assert Flip(flag) == Some(true);
        }
      }
    }
  }

  /** The example that forbids the stronger claim: a row without the flag comes back with `false`. */
  lemma ToggleTwiceSetsAbsentFlag(inv: Invitation)
    requires inv.isActive == None
    ensures ToggleStatus(ToggleStatus([inv], inv.id), inv.id) == [inv.(isActive := Some(false))]
  {
  }

  /**
   * `prev.filter(link => link.id !== id)` after a successful delete: every
   * invitation with another id stays, as often as it occurred and in order,
   * and none with that id is left.
   */
  function RemoveInvite(invites: seq<Invitation>, id: string): (r: seq<Invitation>)
    ensures IsSubsequence(r, invites)
    ensures forall v :: v in r <==> v in invites && v.id != id
    ensures forall v :: multiset(r)[v] == if v.id != id then multiset(invites)[v] else 0
  {
    Filter(invites, (v: Invitation) => v.id != id)
  }

  // ---------------------------------------------------------------------------
  // Creating an invitation

  /**
   * The row `createInviteLink` sends, if any: none without a signed-in user
   * or with a title that is blank after `trim`; otherwise the title and
   * description as typed, the complete links only, and the active flag.
   */
  function CreateRequest(user: Option<string>, d: Draft): (r: Option<InsertRequest>)
    ensures r.Some? <==> user.Some? && exists i :: 0 <= i < |d.title| && !IsWhitespace(d.title[i])
    ensures r.Some? ==> r.value.userId == user.value && r.value.title == d.title && r.value.description == d.description
    ensures r.Some? ==> r.value.links == CompleteLinks(d.links) && r.value.isActive
  {
    TrimEmptyIffBlank(d.title);
    if user.None? || Trim(d.title) == "" then None
    else Some(InsertRequest(user.value, d.title, d.description, CompleteLinks(d.links), true))
  }

  // ---------------------------------------------------------------------------
  // The catalogue

  /** "+ Add Catalogue Item": a blank item at the end while fewer than five are drafted. */
  function AppendBlankItem(catalogue: seq<CatalogueItem>): (r: seq<CatalogueItem>)
    ensures |catalogue| < MaxCatalogue ==> r == catalogue + [BlankItem]
    ensures |catalogue| >= MaxCatalogue ==> r == catalogue
    ensures |catalogue| <= MaxCatalogue ==> |r| <= MaxCatalogue
  {
    if |catalogue| < MaxCatalogue then catalogue + [BlankItem] else catalogue
  }

  /** Remove: `prev.catalogue.filter((_, i) => i !== idx)`. */
  function RemoveItemAt(catalogue: seq<CatalogueItem>, idx: nat): (r: seq<CatalogueItem>)
    ensures idx < |catalogue| ==> |r| == |catalogue| - 1
    ensures idx >= |catalogue| ==> r == catalogue
    ensures forall j :: 0 <= j < |r| ==> r[j] == if j < idx then catalogue[j] else catalogue[j + 1]
  {
    if idx < |catalogue| then catalogue[..idx] + catalogue[idx + 1..] else catalogue
  }

  function GetItemField(item: CatalogueItem, f: ItemField): string {
    match f
    case ItemTitle => item.title
    case ItemImage => item.image
    case ItemDescription => item.description
    case ItemPrice => item.price
    case ItemLink => item.link
  }

  /** `catalogue[idx].<field> = value`: one field of one item changes. */
  function SetItemField(catalogue: seq<CatalogueItem>, idx: nat, f: ItemField, value: string): (r: seq<CatalogueItem>)
    requires idx < |catalogue|
    ensures |r| == |catalogue|
    ensures forall j, g :: 0 <= j < |r| ==>
              GetItemField(r[j], g) == if j == idx && g == f then value else GetItemField(catalogue[j], g)
  {
    var item := catalogue[idx];
    var item' := match f
      case ItemTitle => item.(title := value)
      case ItemImage => item.(image := value)
      case ItemDescription => item.(description := value)
      case ItemPrice => item.(price := value)
      case ItemLink => item.(link := value);
    catalogue[idx := item']
  }

  function GetThemeField(t: Theme, f: ThemeField): string {
    match f
    case PrimaryColor => t.primaryColor
    case BackgroundColor => t.backgroundColor
    case Font => t.font
    case Logo => t.logo
  }

  /** The theme inputs (the logo input stores the file's data URL): one property changes. */
  function SetThemeField(t: Theme, f: ThemeField, value: string): (r: Theme)
    ensures forall g :: GetThemeField(r, g) == if g == f then value else GetThemeField(t, g)
  {
    match f
    case PrimaryColor => t.(primaryColor := value)
    case BackgroundColor => t.(backgroundColor := value)
    case Font => t.(font := value)
    case Logo => t.(logo := value)
  }

  // ---------------------------------------------------------------------------
  // CSV export

  const CsvHeader: seq<string> := ["Time", "Type", "Location", "Device", "Referral"]

  /** The header row joined by commas. */
  lemma HeaderLine()
    ensures Join(CsvHeader, ',') == "Time,Type,Location,Device,Referral"
  {
    var h := CsvHeader;
    assert h[4..] == ["Referral"];
    assert h[3..] == ["Device"] + h[4..];
    assert h[2..] == ["Location"] + h[3..];
    assert h[1..] == ["Type"] + h[2..];
    var j4 := Join(h[4..], ',');
    var j3 := Join(h[3..], ',');
    var j2 := Join(h[2..], ',');
    var j1 := Join(h[1..], ',');
    assert j4 == "Referral";
    assert j3 == "Device" + [','] + j4;
    assert j2 == "Location" + [','] + j3;
    assert j1 == "Type" + [','] + j2;
    assert Join(h, ',') == "Time" + [','] + j1;
  }

  function TypeName(k: Analytics.EventType): string {
    match k
    case View => "view"
    case Click => "click"
  }

  /** One event's cells: its local time, "view" or "click", and its location, device and referral as stored. */
  function CsvFields(e: Analytics.AnalyticsEvent, localTime: string -> string): (r: seq<string>)
    ensures |r| == |CsvHeader|
    ensures r[0] == localTime(e.timestamp)
    ensures r[1] == (if e.kind == Analytics.View then "view" else "click")
    ensures r[2..] == [e.location, e.device, e.referral]
  {
    [localTime(e.timestamp), TypeName(e.kind), e.location, e.device, e.referral]
  }

  function CsvRows(events: seq<Analytics.AnalyticsEvent>, localTime: string -> string): (rows: seq<string>)
    ensures |rows| == |events| + 1
    ensures rows[0] == Join(CsvHeader, ',')
    ensures forall i :: 0 <= i < |events| ==> rows[i + 1] == Join(CsvFields(events[i], localTime), ',')
  {
    var lines := seq(|events|, i requires 0 <= i < |events| => Join(CsvFields(events[i], localTime), ','));
    assert forall i :: 0 <= i < |events| ==> ([Join(CsvHeader, ',')] + lines)[i + 1] == lines[i];
    [Join(CsvHeader, ',')] + lines
  }

  /** The exported text: the header and one comma-joined row per event, joined by line feeds, unescaped. */
  function Csv(events: seq<Analytics.AnalyticsEvent>, localTime: string -> string): (r: string)
    ensures events == [] ==> r == "Time,Type,Location,Device,Referral"
    ensures events != [] ==> |r| > 35 && r[..35] == "Time,Type,Location,Device,Referral\n"
  {
    var rows := CsvRows(events, localTime);
    HeaderLine();
    assert |rows| >= 2 ==> Join(rows, '\n') == rows[0] + ['\n'] + Join(rows[1..], '\n');
    Join(rows, '\n')
  }

  predicate FieldsFreeOf(events: seq<Analytics.AnalyticsEvent>, localTime: string -> string, c: char) {
    forall i, j :: 0 <= i < |events| && 0 <= j < 5 ==> c !in CsvFields(events[i], localTime)[j]
  }

  lemma JoinFreeOf(parts: seq<string>, sep: char, c: char)
    requires c != sep && forall j :: 0 <= j < |parts| ==> c !in parts[j]
    ensures c !in Join(parts, sep)
    decreases |parts|
  {
    if |parts| > 1 {
      JoinFreeOf(parts[1..], sep, c);
    }
  }

  /**
   * When no field holds a line feed, the export has one line per event after
   * the header, and when no field holds a comma either, each line splits back
   * into the five fields of its event.
   */
  lemma CsvRoundTrip(events: seq<Analytics.AnalyticsEvent>, localTime: string -> string)
    requires FieldsFreeOf(events, localTime, '\n')
    ensures Split(Csv(events, localTime), '\n') == CsvRows(events, localTime)
    ensures |Split(Csv(events, localTime), '\n')| == |events| + 1
    ensures FieldsFreeOf(events, localTime, ',') ==>
      forall i :: 0 <= i < |events| ==> Split(Split(Csv(events, localTime), '\n')[i + 1], ',') == CsvFields(events[i], localTime)
  {
    var rows := CsvRows(events, localTime);
    JoinFreeOf(CsvHeader, ',', '\n');
    forall k | 1 <= k < |rows|
      ensures '\n' !in rows[k]
    {
      assert rows[k] == Join(CsvFields(events[k - 1], localTime), ',');
      JoinFreeOf(CsvFields(events[k - 1], localTime), ',', '\n');
    }
    SplitJoin(rows, '\n');
    if FieldsFreeOf(events, localTime, ',') {
      forall i | 0 <= i < |events|
        ensures Split(rows[i + 1], ',') == CsvFields(events[i], localTime)
      {
        SplitJoin(CsvFields(events[i], localTime), ',');
      }
    }
  }

  // ---------------------------------------------------------------------------
  // The component's state

  class Manager {
    /** The `isPremium` prop; an absent prop is false. */
    const isPremium: bool
    var invites: seq<Invitation>
    var draft: Draft

    /**
     * The form never drafts more than five catalogue items, and without
     * premium the theme and catalogue inputs are not rendered, so the draft
     * keeps the default theme and an empty catalogue.
     */
    ghost predicate Valid()
      reads this
    {
      && |draft.catalogue| <= MaxCatalogue
      && (!isPremium ==> draft.theme == DefaultTheme && draft.catalogue == [])
    }

    constructor (isPremium: bool)
      ensures Valid() && this.isPremium == isPremium && invites == [] && draft == EmptyDraft
    {
      this.isPremium := isPremium;
      invites := [];
      draft := EmptyDraft;
    }

    /** The fetch on mount: a successful query replaces the list, a failed one leaves it. */
    method LoadInvites(rows: Option<seq<Invitation>>)
      requires Valid()
      modifies this
      ensures Valid() && draft == old(draft)
      ensures invites == if rows.Some? then rows.value else old(invites)
    {
      if rows.Some? {
        invites := rows.value;
      }
    }

    method SetTitle(value: string)
      requires Valid()
      modifies this
      ensures Valid() && invites == old(invites) && draft == old(draft).(title := value)
    {
      draft := draft.(title := value);
    }

    method SetDescription(value: string)
      requires Valid()
      modifies this
      ensures Valid() && invites == old(invites) && draft == old(draft).(description := value)
    {
      draft := draft.(description := value);
    }

    /** The theme inputs, rendered only for a premium user. */
    method SetTheme(f: ThemeField, value: string)
      requires Valid() && isPremium
      modifies this
      ensures Valid() && invites == old(invites)
      ensures draft == old(draft).(theme := SetThemeField(old(draft.theme), f, value))
    {
      draft := draft.(theme := SetThemeField(draft.theme, f, value));
    }

    /** `addLinkToInvite`. */
    method AddLinkToInvite(id: string)
      requires Valid()
      modifies this
      ensures Valid() && invites == old(invites)
      ensures draft == old(draft).(links := AddInviteLink(old(draft.links), id))
    {
      draft := draft.(links := AddInviteLink(draft.links, id));
    }

    /** `updateInviteLink`. */
    method UpdateInviteLink(id: string, field: LinkField, value: string)
      requires Valid()
      modifies this
      ensures Valid() && invites == old(invites)
      ensures draft == old(draft).(links := UpdateLink(old(draft.links), id, field, value))
    {
      draft := draft.(links := UpdateLink(draft.links, id, field, value));
    }

    /** `removeLinkFromInvite`. */
    method RemoveLinkFromInvite(id: string)
      requires Valid()
      modifies this
      ensures Valid() && invites == old(invites)
      ensures draft == old(draft).(links := RemoveLink(old(draft.links), id))
    {
      draft := draft.(links := RemoveLink(draft.links, id));
    }

    /**
     * `createInviteLink`: returns the row it sends, if any. Nothing changes
     * when no row is sent or the insert fails; otherwise the first stored row,
     * if the backend returned one, goes to the front of the list and the
     * draft is reset.
     */
    method CreateInviteLink(user: Option<string>, response: InsertResponse) returns (sent: Option<InsertRequest>)
      requires Valid()
      modifies this
      ensures Valid()
      ensures sent == CreateRequest(user, old(draft))
      ensures sent.None? || response.InsertFailed? ==> invites == old(invites) && draft == old(draft)
      ensures sent.Some? && response.InsertSucceeded? ==>
        && draft == EmptyDraft
        && invites == if response.rows != [] then [response.rows[0]] + old(invites) else old(invites)
    {
      sent := CreateRequest(user, draft);
      if sent.Some? && response.InsertSucceeded? {
        if response.rows != [] {
          invites := [response.rows[0]] + invites;
        }
        draft := EmptyDraft;
      }
    }

    /** `deleteInviteLink`: the local list loses the invitation only when a signed-in delete succeeds. */
    method DeleteInviteLink(signedIn: bool, deleted: bool, id: string)
      requires Valid()
      modifies this
      ensures Valid() && draft == old(draft)
      ensures invites == if signedIn && deleted then RemoveInvite(old(invites), id) else old(invites)
    {
      if signedIn && deleted {
        invites := RemoveInvite(invites, id);
      }
    }

    /** `toggleInviteStatus`. */
    method ToggleInviteStatus(id: string)
      requires Valid()
      modifies this
      ensures Valid() && draft == old(draft)
      ensures invites == ToggleStatus(old(invites), id)
    {
      invites := ToggleStatus(invites, id);
    }

    /**
     * The add button, which is offered only to a premium user while fewer
     * than five items are drafted; pressing it appends a blank item.
     */
    method AddCatalogueItem() returns (offered: bool)
      requires Valid()
      modifies this
      ensures Valid() && invites == old(invites)
      ensures offered <==> isPremium && |old(draft.catalogue)| < MaxCatalogue
      ensures offered ==> draft == old(draft).(catalogue := old(draft.catalogue) + [BlankItem])
      ensures !offered ==> draft == old(draft)
    {
      offered := isPremium && |draft.catalogue| < MaxCatalogue;
      if offered {
        draft := draft.(catalogue := AppendBlankItem(draft.catalogue));
      }
    }

    /** The per-item inputs, rendered only for a premium user; `idx` is the index of a rendered item. */
    method SetCatalogueField(idx: nat, f: ItemField, value: string)
      requires Valid() && isPremium && idx < |draft.catalogue|
      modifies this
      ensures Valid() && invites == old(invites)
      ensures draft == old(draft).(catalogue := SetItemField(old(draft.catalogue), idx, f, value))
    {
      draft := draft.(catalogue := SetItemField(draft.catalogue, idx, f, value));
    }

    /** The per-item Remove button, rendered only for a premium user. */
    method RemoveCatalogueItem(idx: nat)
      requires Valid() && isPremium
      modifies this
      ensures Valid() && invites == old(invites)
      ensures draft == old(draft).(catalogue := RemoveItemAt(old(draft.catalogue), idx))
    {
      draft := draft.(catalogue := RemoveItemAt(draft.catalogue, idx));
    }
  }
}
