/**
 * The tab list behind the view pager: an ordered list of page hosts that is
 * appended to and removed from in place, with every change announced to the
 * pager as an inserted, removed or changed notification.
 */
module Tabs {
  import opened Platform
  import opened Browser

  /** `notifyItemInserted`, `notifyItemRemoved` and `notifyItemChanged`, with their positions. */
  datatype Notification = ItemInserted(position: int) | ItemRemoved(position: int) | ItemChanged(position: int)

  /** The title shown for a tab that has no page title yet. */
  const NEW_TAB_TITLE: string := "New Tab"

  /** `MutableList.removeAt(i)`: the element at `i` is gone, the others keep their order. */
  function RemoveAt<T>(s: seq<T>, i: int): (r: seq<T>)
    requires 0 <= i < |s|
    ensures |r| == |s| - 1
    ensures forall j :: 0 <= j < i ==> r[j] == s[j]
    ensures forall j :: i <= j < |r| ==> r[j] == s[j + 1]
    ensures multiset(r) + multiset{s[i]} == multiset(s)
  {
    assert s == s[..i] + [s[i]] + s[i + 1..];
    s[..i] + s[i + 1..]
  }

  class TabAdapter {
    /** The open tabs, in tab-strip order. */
    var fragments: seq<BrowserFragment>
    /** Notifications sent to the pager, oldest first. */
    var notifications: seq<Notification>

    /** `init`: the adapter starts with one tab created for `about:blank`. */
    constructor ()
      ensures |fragments| == 1 && fresh(fragments[0])
      ensures fragments[0].arguments == Some(Some(BLANK_URL)) && !fragments[0].viewCreated
      ensures notifications == [ItemInserted(0)]
    {
      fragments := [];
      notifications := [];
      new;
      var f := BrowserFragment.NewInstance(BLANK_URL);
      AddFragment(f);
    }

    /** `getItemCount`. */
    function GetItemCount(): (n: int)
      reads this
      ensures n == |fragments|
    {
      |fragments|
    }

    /** `addFragment`: appends the tab and announces it at the new last position. */
    method AddFragment(fragment: BrowserFragment)
      modifies this
      ensures fragments == old(fragments) + [fragment]
      ensures GetItemCount() == old(GetItemCount()) + 1
      ensures notifications == old(notifications) + [ItemInserted(|fragments| - 1)]
    {
      fragments := fragments + [fragment];
      notifications := notifications + [ItemInserted(|fragments| - 1)];
    }

    /**
     * `removeFragment`: an out-of-range position changes nothing. Otherwise the
     * tab there is removed and announced; when it was the last tab and others
     * remain, the new last position is announced as changed. The list may
     * become empty.
     */
    method RemoveFragment(position: int)
      modifies this
      ensures !(0 <= position < old(|fragments|)) ==>
        fragments == old(fragments) && notifications == old(notifications)
      ensures 0 <= position < old(|fragments|) ==>
        && fragments == RemoveAt(old(fragments), position)
        && notifications == old(notifications) + [ItemRemoved(position)] +
             (if |fragments| > 0 && position == |fragments| then [ItemChanged(|fragments| - 1)] else [])
    {
      if position >= 0 && position < |fragments| {
        fragments := fragments[..position] + fragments[position + 1..];
        notifications := notifications + [ItemRemoved(position)];
        if |fragments| > 0 && position == |fragments| {
          notifications := notifications + [ItemChanged(|fragments| - 1)];
        }
      }
    }

    /** `getFragment`: the tab at `position`, or `None` outside `[0, count)`. */
    function GetFragment(position: int): (r: Option<BrowserFragment>)
      reads this
      ensures r.Some? <==> 0 <= position < |fragments|
      ensures r.Some? ==> r.value == fragments[position]
    {
      if 0 <= position < |fragments| then Some(fragments[position]) else None
    }

    /**
     * `getTabTitle`: the title of the tab's web view, as the platform reports
     * it through `webViewTitle`; "New Tab" when there is no such tab, its view
     * is not created yet, or the page has no title.
     */
    function GetTabTitle(position: int, webViewTitle: BrowserFragment -> Option<string>): (title: string)
      reads this, fragments
      ensures !(0 <= position < |fragments|) ==> title == NEW_TAB_TITLE
      ensures 0 <= position < |fragments| && !fragments[position].viewCreated ==> title == NEW_TAB_TITLE
      ensures 0 <= position < |fragments| && fragments[position].viewCreated ==>
        title == webViewTitle(fragments[position]).GetOr(NEW_TAB_TITLE)
    {
      match GetFragment(position)
      case None => NEW_TAB_TITLE
      case Some(f) => if f.viewCreated then webViewTitle(f).GetOr(NEW_TAB_TITLE) else NEW_TAB_TITLE
    }
  }

  /** Closing the middle of three tabs keeps the other two, in order, the former last now at the top index. */
  method RemoveMiddleOfThree(tabs: TabAdapter, a: BrowserFragment, b: BrowserFragment, c: BrowserFragment)
    requires tabs.fragments == [a, b, c]
    modifies tabs
  {
    tabs.RemoveFragment(1);
    assert tabs.fragments == [a, c];
    assert tabs.notifications == old(tabs.notifications) + [ItemRemoved(1)];
  }

  /** Closing the last tab while others remain also announces the new last position. */
  method RemoveLastOfTwo(tabs: TabAdapter, a: BrowserFragment, b: BrowserFragment)
    requires tabs.fragments == [a, b]
    modifies tabs
  {
    tabs.RemoveFragment(5);
    assert tabs.fragments == [a, b];
    tabs.RemoveFragment(1);
    assert tabs.fragments == [a];
    assert tabs.notifications == old(tabs.notifications) + [ItemRemoved(1), ItemChanged(0)];
    tabs.RemoveFragment(0);
    assert tabs.GetItemCount() == 0 && tabs.GetFragment(0) == None;
    assert tabs.GetTabTitle(0, f => Some("x")) == NEW_TAB_TITLE;
  }
}
