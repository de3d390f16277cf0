/** `src/rails-inspector.ts`: the inspector that highlights the annotated
    element under the pointer, remembers the parent paths found for it, and
    opens the chosen template in an editor. */
module RailsInspectorComponent {
  import opened Wrappers
  import opened Utils
  import opened Editor

  /** The `path` of each result, in order. */
  function PathsOf(targets: seq<Target>): seq<string> {
    seq(|targets|, i requires 0 <= i < |targets| => targets[i].path)
  }

  class RailsInspector {
    var urlPrefix: string
    var root: string
    var comboKey: string
    var autoDisable: bool
    var notAutoDisable: bool
    var result: Option<Target>
    var parentPaths: seq<string>
    var overlayVisible: bool
    var enabled: bool
    /** Whether the `mousemove` and `click` listeners are on `document.body`. */
    ghost var listening: bool

    /** The listeners are registered exactly while the inspector is enabled,
        the overlay is shown only over a found element, and a found element
        always carries a non-empty path. */
    ghost predicate Valid()
      reads this
    {
      listening == enabled &&
      (overlayVisible ==> result.Some?) &&
      (result.Some? ==> result.value.path != [])
    }

    constructor ()
      ensures Valid()
      ensures urlPrefix == "vscode://file" && root == "/" && comboKey == "meta-shift-v"
      ensures !autoDisable && !notAutoDisable
      ensures result == None && parentPaths == []
      ensures !enabled && !overlayVisible && !listening
    {
      urlPrefix, root, comboKey := "vscode://file", "/", "meta-shift-v";
      autoDisable, notAutoDisable := false, false;
      result, parentPaths := None, [];
      overlayVisible, enabled := false, false;
      listening := false;
    }

    /** `enable`: turns the inspector on; the overlay stays as it was. */
    method Enable()
      requires Valid()
      modifies this`enabled, this`listening
      ensures Valid()
      ensures enabled && listening
      ensures overlayVisible == old(overlayVisible)
    {
      enabled := true;
      listening := true;
    }

    /** `disable`: turns the inspector off and hides the overlay, from any
        state. */
    method Disable()
      requires Valid()
      modifies this`enabled, this`overlayVisible, this`listening
      ensures Valid()
      ensures !enabled && !overlayVisible && !listening
    {
      enabled := false;
      overlayVisible := false;
      listening := false;
    }

    /** `toggle`: `disable` when enabled, `enable` otherwise. */
    method Toggle()
      requires Valid()
      modifies this`enabled, this`overlayVisible, this`listening
      ensures Valid()
      ensures enabled == !old(enabled)
      ensures overlayVisible == (old(overlayVisible) && !old(enabled))
    {
      if enabled {
        Disable();
      } else {
        Enable();
      }
    }

    /** `_handleMove`, for a pointer over `target` (`None` when the event
        target is not an HTML element, which the handler ignores).
        `parentTargets` is what `findParentTargets` answers for the result,
        which this model takes as given. */
    method HandleMove(target: Option<Elem>, parentTargets: seq<Target>)
      requires Valid()
      modifies this`result, this`parentPaths, this`overlayVisible
      ensures Valid()
      ensures target.None? ==>
        result == old(result) && parentPaths == old(parentPaths) &&
        overlayVisible == old(overlayVisible)
      ensures target.Some? ==>
        result == FindTarget(target.value) && (overlayVisible <==> result.Some?) &&
        parentPaths == (if result.Some? then PathsOf(parentTargets) else old(parentPaths))
    {
      if target.None? {
        return;
      }
      var found := FindTarget(target.value);
      result := found;
      if found.Some? {
        parentPaths := PathsOf(parentTargets);
        overlayVisible := true;
      } else {
        overlayVisible := false;
      }
    }

    /** `_handleMouseMoveButton`: the pointer over the inspector's own button
        hides the overlay. */
    method HandleMouseMoveButton()
      requires Valid()
      modifies this`overlayVisible
      ensures Valid() && !overlayVisible
    {
      overlayVisible := false;
    }

    /** `_handleClick`: a click on an annotated element (or inside one) opens
        its template and then disables the inspector unless
        `notAutoDisable` is set. A click elsewhere changes nothing. */
    method HandleClick(target: Option<Elem>) returns (openedUrl: Option<string>)
      requires Valid()
      modifies this`enabled, this`overlayVisible, this`listening
      ensures Valid()
      ensures var found := if target.Some? then FindTarget(target.value) else None;
        (found.None? ==> openedUrl == None) &&
        (found.Some? ==> openedUrl == Some(EditorUrl(urlPrefix, root, found.value.path))) &&
        (found.Some? && !notAutoDisable ==> !enabled && !overlayVisible) &&
        (found.None? || notAutoDisable ==>
          enabled == old(enabled) && overlayVisible == old(overlayVisible))
    {
      openedUrl := None;
      if target.None? {
        return;
      }
      var found := FindTarget(target.value);
      if found.Some? {
        openedUrl := Some(EditorUrl(urlPrefix, root, found.value.path));
        if !notAutoDisable {
          Disable();
        }
      }
    }

    /** `_handleOpen`: a path chosen in the breadcrumb is opened, and the
        inspector is disabled unless `notAutoDisable` is set. */
    method HandleOpen(path: string) returns (openedUrl: string)
      requires Valid()
      modifies this`enabled, this`overlayVisible, this`listening
      ensures Valid()
      ensures openedUrl == EditorUrl(urlPrefix, root, path)
      ensures !notAutoDisable ==> !enabled && !overlayVisible
      ensures notAutoDisable ==> enabled == old(enabled) && overlayVisible == old(overlayVisible)
    {
      openedUrl := EditorUrl(urlPrefix, root, path);
      if !notAutoDisable {
        Disable();
      }
    }

    /** `_handleKeyDown`. Escape disables an enabled inspector and never
        turns one on; any other key toggles exactly when `isCombo` (given
        here as `comboPressed`, the verdict of `isCombo(comboKey, event)`)
        holds. */
    method HandleKeyDown(event: KeyEvent, comboPressed: bool)
      requires Valid()
      modifies this`enabled, this`overlayVisible, this`listening
      ensures Valid()
      ensures IsEscape(event.key) ==>
        !enabled && overlayVisible == (old(overlayVisible) && !old(enabled))
      ensures !IsEscape(event.key) && comboPressed ==>
        enabled == !old(enabled) && overlayVisible == (old(overlayVisible) && !old(enabled))
      ensures !IsEscape(event.key) && !comboPressed ==>
        enabled == old(enabled) && overlayVisible == old(overlayVisible)
    {
      if IsEscape(event.key) {
        if enabled {
          Disable();
        }
        return;
      }
      if comboPressed {
        Toggle();
      }
    }
  }

  /** Two toggles in a row restore whether the inspector is enabled, and
      always leave the overlay hidden. */
  method ToggleTwice(inspector: RailsInspector)
    requires inspector.Valid()
    modifies inspector`enabled, inspector`overlayVisible, inspector`listening
    ensures inspector.Valid() && inspector.enabled == old(inspector.enabled)
    ensures !inspector.overlayVisible
  {
    inspector.Toggle();
    inspector.Toggle();
  }
}
