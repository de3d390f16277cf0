/** `src/rails-inspector-dropdown.ts`: the menu listing the hovered template
    and the parent paths it is given, which asks for one of them to be opened
    when an item is clicked. */
module Dropdown {
  import opened JsString

  /** The last `/`-separated segment of a path, as the item label. */
  function Basename(path: string): (name: string)
    ensures '/' !in name
    ensures |name| <= |path| && name == path[|path| - |name|..]
    ensures forall i :: |path| - |name| <= i < |path| ==> path[i] != '/'
    ensures |name| < |path| ==> path[|path| - |name| - 1] == '/'
    ensures '/' !in path ==> name == path
    ensures |path| > 0 && path[|path| - 1] == '/' ==> name == ""
  {
    var parts := Split(path, '/');
    SplitLast(path, '/');
    var name := parts[|parts| - 1];
    name
  }

  /** The label of a path under a directory is the file name after the last
      separator, whatever the directory is. */
  lemma BasenameOfJoined(dir: string, file: string)
    requires '/' !in file
    ensures Basename(dir + "/" + file) == file
  {
    var path := dir + "/" + file;
    assert path[|dir|] == '/';
    assert path[|path| - |file|..] == file;
  }

  /** `s.slice().reverse()`: a reversed copy. */
  function Reversed(s: seq<string>): (r: seq<string>)
    ensures |r| == |s|
    ensures forall i :: 0 <= i < |s| ==> r[i] == s[|s| - 1 - i]
  {
    if s == [] then [] else [s[|s| - 1]] + Reversed(s[..|s| - 1])
  }

  /** The menu items: the current path first, then `parentPaths` from the
      last to the first. */
  function DropdownItems(currentPath: string, parentPaths: seq<string>): (items: seq<string>)
    ensures |items| == 1 + |parentPaths| && items[0] == currentPath
    ensures forall i :: 1 <= i < |items| ==> items[i] == parentPaths[|parentPaths| - i]
  {
    [currentPath] + Reversed(parentPaths)
  }

  /** The `open` CustomEvent: its `detail.path`, and that it bubbles out of
      the shadow root. */
  datatype OpenEvent = OpenEvent(path: string, bubbles: bool, composed: bool)

  class RailsInspectorDropdown {
    var parentPaths: seq<string>
    var currentPath: string
    var dropdownOpen: bool

    constructor ()
      ensures parentPaths == [] && currentPath == "" && !dropdownOpen
    {
      parentPaths, currentPath, dropdownOpen := [], "", false;
    }

    /** The items `render` lists. */
    function Items(): seq<string>
      reads this
    {
      DropdownItems(currentPath, parentPaths)
    }

    /** `_toggleDropdown`: the menu opens if closed and closes if open. */
    method ToggleDropdown()
      modifies this`dropdownOpen
      ensures dropdownOpen == !old(dropdownOpen)
    {
      dropdownOpen := !dropdownOpen;
    }

    /** `_dispatchOpen`: the event announcing the chosen path. */
    method DispatchOpen(path: string) returns (event: OpenEvent)
      ensures event.path == path && event.bubbles && event.composed
    {
      event := OpenEvent(path, true, true);
    }

    /** `_handleDropdownItemClick`: closes the menu and emits the path. */
    method HandleDropdownItemClick(path: string) returns (event: OpenEvent)
      modifies this`dropdownOpen
      ensures !dropdownOpen
      ensures event.path == path && event.bubbles && event.composed
    {
      dropdownOpen := false;
      event := DispatchOpen(path);
    }

    /** A click on the item at `index`, whose listener `render` binds to
        that item's path. */
    method ClickItem(index: nat) returns (event: OpenEvent)
      requires index < |Items()|
      modifies this`dropdownOpen
      ensures !dropdownOpen
      ensures event.path == (if index == 0 then currentPath else parentPaths[|parentPaths| - index])
    {
      var items := Items();
      event := HandleDropdownItemClick(items[index]);
    }
  }

  /** Two toggles in a row leave the menu as it was. */
  method ToggleTwice(dropdown: RailsInspectorDropdown)
    modifies dropdown`dropdownOpen
    ensures dropdown.dropdownOpen == old(dropdown.dropdownOpen)
  {
    dropdown.ToggleDropdown();
    dropdown.ToggleDropdown();
  }
}
