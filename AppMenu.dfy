/**
 * The floating navigation menu. Which entries it offers depends only on the
 * current path, on whether the visitor created the list being shown, and on
 * the list's group id; with no entries it renders nothing. Whether the
 * visitor is the creator is settled by an effect that compares the stored
 * creator id with the creator of the group's first idea; the group fetch is
 * an input.
 */
module AppMenu {
  import opened Wrappers
  import opened Text

  /** A menu entry: an emoji icon, its label (also the entry's render key) and a target path. */
  datatype MenuItem = MenuItem(icon: string, caption: string, href: string)

  /** The group id as a template literal renders it: an absent id prints as "undefined". */
  function GroupText(groupId: Option<string>): (t: string)
    ensures t == "" <==> groupId == Some("")
  {
    if groupId.Some? then groupId.value else "undefined"
  }

  const EditList := MenuItem("✏️", "Edit List", "/edit/")
  const MyLists := MenuItem("📋", "My Lists", "/my-lists")
  const ViewList := MenuItem("👀", "View List", "/swipe/")
  const NewList := MenuItem("➕", "New List", "/")

  /** `item` with the group id appended to its target path. */
  function ForGroup(item: MenuItem, groupId: Option<string>): (r: MenuItem)
    ensures r.icon == item.icon && r.caption == item.caption
    ensures StartsWith(r.href, item.href)
    ensures r.href == item.href <==> groupId == Some("")
  {
    item.(href := item.href + GroupText(groupId))
  }

  /** Some rule of the table applies to `pathname`. */
  predicate HasMenu(pathname: string, isCreator: bool) {
    (StartsWith(pathname, "/swipe/") && isCreator) || StartsWith(pathname, "/edit/")
    || pathname == "/my-lists" || pathname == "/"
  }

  /**
   * The entries for `pathname`, first matching rule wins: the voting page of
   * one's own list, any edit page, the list overview, the home page, and
   * nothing anywhere else.
   */
  function MenuItems(pathname: string, isCreator: bool, groupId: Option<string>): (r: seq<MenuItem>)
    ensures r == [] <==> !HasMenu(pathname, isCreator)
    ensures |r| <= 2
    ensures forall i, j :: 0 <= i < j < |r| ==> r[i].caption != r[j].caption
  {
    if StartsWith(pathname, "/swipe/") && isCreator then
      [ForGroup(EditList, groupId), MyLists]
    else if StartsWith(pathname, "/edit/") then
      [ForGroup(ViewList, groupId), MyLists]
    else if pathname == "/my-lists" then
      [NewList]
    else if pathname == "/" then
      [MyLists]
    else
      []
  }

  /** The voting page of one's own list offers editing it and the list overview. */
  lemma CreatorSwipeMenu(pathname: string, groupId: Option<string>)
    requires StartsWith(pathname, "/swipe/")
    ensures MenuItems(pathname, true, groupId) ==
      [MenuItem("✏️", "Edit List", "/edit/" + GroupText(groupId)), MenuItem("📋", "My Lists", "/my-lists")]
  {
  }

  /** A visitor on a voting page gets no menu at all. */
  lemma VisitorSwipeMenu(pathname: string, groupId: Option<string>)
    requires StartsWith(pathname, "/swipe/")
    ensures MenuItems(pathname, false, groupId) == []
  {
    assert !StartsWith(pathname, "/edit/") by {
      assert pathname[1] == 's';
    }
  }

  /** An edit page offers viewing the list and the list overview, creator or not. */
  lemma EditMenu(pathname: string, isCreator: bool, groupId: Option<string>)
    requires StartsWith(pathname, "/edit/")
    ensures MenuItems(pathname, isCreator, groupId) ==
      [MenuItem("👀", "View List", "/swipe/" + GroupText(groupId)), MenuItem("📋", "My Lists", "/my-lists")]
  {
    assert !StartsWith(pathname, "/swipe/") by {
      assert pathname[1] == 'e';
    }
  }

  /** The list overview offers a new list, the home page the list overview. */
  lemma FixedPageMenus(isCreator: bool, groupId: Option<string>)
    ensures MenuItems("/my-lists", isCreator, groupId) == [MenuItem("➕", "New List", "/")]
    ensures MenuItems("/", isCreator, groupId) == [MenuItem("📋", "My Lists", "/my-lists")]
  {
    assert !StartsWith("/my-lists", "/swipe/") && !StartsWith("/my-lists", "/edit/") by {
      assert "/my-lists"[1] == 'm';
    }
  }

  /** Being the creator changes the menu only on voting pages. */
  lemma CreatorOnlyOnSwipe(pathname: string, groupId: Option<string>)
    requires !StartsWith(pathname, "/swipe/")
    ensures MenuItems(pathname, true, groupId) == MenuItems(pathname, false, groupId)
  {
  }

  /** No entry leads back to the page the menu is shown on. */
  lemma {:induction false} NeverLinksToSelf(pathname: string, isCreator: bool, groupId: Option<string>)
    ensures forall item :: item in MenuItems(pathname, isCreator, groupId) ==> item.href != pathname
  {
    var r := MenuItems(pathname, isCreator, groupId);
    var g := GroupText(groupId);
    if StartsWith(pathname, "/swipe/") && isCreator {
      assert pathname[1] == 's';
      assert ("/edit/" + g)[1] == 'e';
      assert "/my-lists"[1] == 'm';
    } else if StartsWith(pathname, "/edit/") {
      assert pathname[1] == 'e';
      assert ("/swipe/" + g)[1] == 's';
      assert "/my-lists"[1] == 'm';
    }
  }

  /** The rendered menu: its open flag and whether the visitor created the list. */
  class Menu {
    const groupId: Option<string>
    var isOpen: bool
    var isCreator: bool

    constructor (groupId: Option<string>)
      ensures this.groupId == groupId && !isOpen && !isCreator
    {
      this.groupId := groupId;
      isOpen := false;
      isCreator := false;
    }

    /**
     * The creator check, with `storedCreatorId` the id kept in the browser and
     * `reply` the creator ids of the group's ideas in order (`None` when the
     * request fails or its status is not ok). The flag is set only when a
     * group id and a stored id are present and the first idea was created by
     * that id; the check never clears it.
     */
    method CheckCreatorStatus(storedCreatorId: Option<string>, reply: Option<seq<Option<string>>>)
      modifies this
      ensures isOpen == old(isOpen)
      ensures isCreator <==>
        old(isCreator) ||
        (groupId.Some? && groupId.value != "" && storedCreatorId.Some? && storedCreatorId.value != ""
         && reply.Some? && |reply.value| > 0 && reply.value[0] == storedCreatorId)
    {
      if groupId.None? || groupId.value == "" {
        return;
      }
      if storedCreatorId.None? || storedCreatorId.value == "" {
        return;
      }
      if reply.None? {
        return;
      }
      var ideas := reply.value;
      if |ideas| > 0 && ideas[0] == storedCreatorId {
        isCreator := true;
      }
    }

    /** The main button opens a closed menu and closes an open one. */
    method ToggleOpen()
      modifies this
      ensures isOpen == !old(isOpen) && isCreator == old(isCreator)
    {
      isOpen := !isOpen;
    }

    /**
     * A click on one of the entries shown on `pathname` (entries are shown
     * only while the menu is open): the menu closes and the entry's target is
     * the page navigated to.
     */
    method ClickItem(pathname: string, item: MenuItem) returns (target: string)
      requires isOpen && item in MenuItems(pathname, isCreator, groupId)
      modifies this
      ensures !isOpen && isCreator == old(isCreator)
      ensures target == item.href && target != pathname
    {
      NeverLinksToSelf(pathname, isCreator, groupId);
      isOpen := false;
      target := item.href;
    }
  }
}
