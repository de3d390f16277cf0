/** `src/template-inspector.ts`: the simpler inspector that labels the
    annotated element under the pointer with its template path and opens
    that template in an editor on click. */
module TemplateInspectorComponent {
  import opened Wrappers
  import opened Utils
  import opened Editor

  class TemplateInspector {
    var urlPrefix: string
    var root: string
    var comboKey: string
    var path: Option<string>
    var overlayVisible: bool
    var enabled: bool
    var targetElement: Option<Elem>
    /** Whether the `mousemove` and `click` listeners are on `document.body`. */
    ghost var listening: bool

    /** The listeners are registered exactly while the inspector is enabled;
        a shown path is non-empty and belongs to a remembered element, and
        the overlay is shown only with a path. */
    ghost predicate Valid()
      reads this
    {
      listening == enabled &&
      (overlayVisible ==> path.Some?) &&
      (path.Some? ==> path.value != [] && targetElement.Some?)
    }

    constructor ()
      ensures Valid()
      ensures urlPrefix == "vscode://file" && root == "/" && comboKey == "meta-shift-v"
      ensures path == None && targetElement == None
      ensures !enabled && !overlayVisible && !listening
    {
      urlPrefix, root, comboKey := "vscode://file", "/", "meta-shift-v";
      path, targetElement := None, None;
      overlayVisible, enabled := false, false;
      listening := false;
    }

    /** `enable`: turns the inspector on; the overlay stays as it was. */
    method Enable()
      requires Valid()
      modifies this`enabled, this`listening
      ensures Valid()
      ensures enabled && listening
      ensures overlayVisible == old(overlayVisible)
    {
      enabled := true;
      listening := true;
    }

    /** `disable`: turns the inspector off and hides the overlay. */
    method Disable()
      requires Valid()
      modifies this`enabled, this`overlayVisible, this`listening
      ensures Valid()
      ensures !enabled && !overlayVisible && !listening
    {
      enabled := false;
      overlayVisible := false;
      listening := false;
    }

    /** `toggle`: `disable` when enabled, `enable` otherwise. */
    method Toggle()
      requires Valid()
      modifies this`enabled, this`overlayVisible, this`listening
      ensures Valid()
      ensures enabled == !old(enabled)
      ensures overlayVisible == (old(overlayVisible) && !old(enabled))
    {
      if enabled {
        Disable();
      } else {
        Enable();
      }
    }

    /** `_handleMove`: the path shown becomes that of the annotated element
        under the pointer, or none; the remembered element changes only when
        one is found. With no target, `findTarget` fails before anything is
        assigned, so nothing changes. */
    method HandleMove(target: Option<Elem>)
      requires Valid()
      modifies this`path, this`targetElement, this`overlayVisible
      ensures Valid()
      ensures target.None? ==>
        path == old(path) && targetElement == old(targetElement) &&
        overlayVisible == old(overlayVisible)
      ensures target.Some? ==>
        var found := FindTarget(target.value);
        (found.Some? ==>
          path == Some(found.value.path) && targetElement == Some(found.value.element) &&
          overlayVisible) &&
        (found.None? ==>
          path == None && targetElement == old(targetElement) && !overlayVisible)
    {
      if target.None? {
        return;
      }
      var found := FindTarget(target.value);
      path := if found.Some? then Some(found.value.path) else None;
      if found.Some? {
        targetElement := Some(found.value.element);
        overlayVisible := true;
      } else {
        overlayVisible := false;
      }
    }

    /** `_handleClick`: opens the template of the annotated element clicked
        (or the one around it), and changes no state. */
    method HandleClick(target: Option<Elem>) returns (openedUrl: Option<string>)
      ensures target.None? ==> openedUrl == None
      ensures target.Some? && FindTarget(target.value).None? ==> openedUrl == None
      ensures target.Some? && FindTarget(target.value).Some? ==>
        openedUrl == Some(EditorUrl(urlPrefix, root, FindTarget(target.value).value.path))
    {
      openedUrl := None;
      if target.None? {
        return;
      }
      var found := FindTarget(target.value);
      if found.Some? {
        openedUrl := Some(EditorUrl(urlPrefix, root, found.value.path));
      }
    }

    /** `_handleKeyDown`: Escape disables an enabled inspector and returns
        before the combo is looked at; otherwise the combo (its verdict given
        as `comboPressed`) toggles. */
    method HandleKeyDown(event: KeyEvent, comboPressed: bool)
      requires Valid()
      modifies this`enabled, this`overlayVisible, this`listening
      ensures Valid()
      ensures IsEscape(event.key) ==>
        !enabled && overlayVisible == (old(overlayVisible) && !old(enabled))
      ensures !IsEscape(event.key) && comboPressed ==>
        enabled == !old(enabled) && overlayVisible == (old(overlayVisible) && !old(enabled))
      ensures !IsEscape(event.key) && !comboPressed ==>
        enabled == old(enabled) && overlayVisible == old(overlayVisible)
    {
      if IsEscape(event.key) {
        if enabled {
          Disable();
        }
        return;
      }
      if comboPressed {
        Toggle();
      }
    }
  }
}
