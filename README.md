# Rails template inspector: a Dafny model

This project models the logic behind the browser overlay of
`rails-template-inspector`. The overlay shows which Rails template drew the
element under the pointer and opens that template in an editor. Rails marks
each rendered template with an HTML comment `<!-- BEGIN app/views/... -->`
placed before its output. The overlay finds the comment that belongs to an
element, shows the path, and builds an editor URL from it.

The model has one module per source file, plus three support modules:

- `Utils` (`src/utils.ts`). A DOM element is an `Elem`: the nodes before it
  among its siblings (the last of these is its `previousSibling`) and its
  `parentElement`. `FindPreviousAnnotateComment` walks back over non-comment
  siblings. It decides at the first comment it meets, and the walk stops
  there. `FindTarget` tries the element, then each ancestor in turn.
  `IsKeyActive` matches one key name against a keyboard event.
- `Dropdown` (`src/rails-inspector-dropdown.ts`). The item label
  (`Basename`), the item list (the current path, then the parent paths
  reversed), and the class `RailsInspectorDropdown` with its open flag and
  item clicks. A click returns the `open` event it would dispatch.
- `RailsInspectorComponent` (`src/rails-inspector.ts`) and
  `TemplateInspectorComponent` (`src/template-inspector.ts`). Each inspector
  is a class. Its fields are the component's state, and its methods are
  `enable`, `disable`, `toggle` and the event handlers. A handler returns the
  URL it would pass to `window.open`. A ghost field `listening` records
  whether the mouse listeners are registered. `Valid()` keeps it equal to
  `enabled`.
- `Editor`: the editor URL `urlPrefix + root + "/" + path`, and its inverse.
- `Wrappers`: the `Option` type used for values that may be undefined.
- `JsString`: the ECMAScript string operations the code calls. `trim` strips
  the full ECMAScript whitespace and line-terminator set. `replace` with a
  string pattern removes only the first occurrence. `split` is modelled for a
  one-character separator, and case mapping for ASCII letters.

Some inputs are not visible in the model and become parameters:
- the target of a pointer event is an `Option<Elem>`;
- `isCombo(comboKey, event)` is given as the boolean `comboPressed`;
- `findParentTargets(...)` is given as the sequence `parentTargets`.

The bodies of `isCombo` and `findParentTargets` are not in the modelled
`src/utils.ts`, so the model does not define them.

The lookup does not pair `BEGIN` with `END`, and it does not skip comments
that are not markers. It stops at the sibling comment nearest the element,
whatever that comment says, and then tries the ancestors. So an element
whose nearest preceding comment is an ordinary comment finds nothing among
its siblings, even when a `BEGIN a` comes before that comment and no
`END a` has closed the region. `Utils.PlainCommentStopsSearchExample` shows
the case.

## Model

| member | source | states |
|---|---|---|
| `JsString.Trim` | src/utils.ts:10 | `trim()` leaves no whitespace at either end |
| `JsString.TrimOfPadded` | src/utils.ts:10 | trimming text padded on both sides with whitespace gives back exactly that text; together with `TrimStart`/`TrimEnd` this pins `trim` down |
| `JsString.RemoveFirst` | src/utils.ts:12 | `replace('BEGIN', '')` cuts out only the first occurrence, and returns a string without one unchanged |
| `JsString.Split` | src/rails-inspector-dropdown.ts:5 | `split('/')` yields at least one piece and no piece contains `/` |
| `JsString.JoinSplit` | src/rails-inspector-dropdown.ts:5 | joining the pieces with `/` gives back the original string |
| `JsString.JoinAppendPiece` | src/rails-inspector-dropdown.ts:5 | a piece added after the last one is joined in behind one more separator |
| `JsString.JoinExtendLast` | src/rails-inspector-dropdown.ts:5 | a character added to the last piece lands at the end of the joined string |
| `JsString.SplitLast` | src/rails-inspector-dropdown.ts:5-6 | the last piece is a suffix of the string, preceded by `/` unless it is the whole string |
| `JsString.ToLowerHasNoUpper` | src/utils.ts:41 | `toLowerCase()` keeps the length, leaves no upper-case letter, and is idempotent |
| `JsString.ToLowerFixesExactlyLowerCase` | src/utils.ts:41 | `toLowerCase()` leaves a string unchanged exactly when it has no upper-case letter, and changes exactly the upper-case positions |
| `JsString.Capitalize` | src/utils.ts:39 | `charAt(0).toUpperCase() + slice(1)` upper-cases only the first character |
| `Utils.FindPreviousAnnotateComment` | src/utils.ts:1-13 | no previous sibling gives undefined, and a found path has no leading or trailing whitespace |
| `Utils.RemoveBeginThenTrim` | src/utils.ts:9-12 | for a comment whose trimmed text starts with `BEGIN`, removing the first `BEGIN` and trimming gives the trimmed text with its `BEGIN` prefix dropped, trimmed again |
| `Utils.FirstBeginAfterWhitespace` | src/utils.ts:10-12 | in such a comment, the first `BEGIN` sits right after the leading whitespace |
| `Utils.LastCommentDecides` | src/utils.ts:2-12 | non-comment siblings are skipped; the nearest comment alone decides, and siblings before it are never examined; a non-`BEGIN` comment gives undefined |
| `Utils.NoCommentNoPath` | src/utils.ts:2-7 | with no comment among the previous siblings, the result is undefined |
| `Utils.FindTarget` | src/utils.ts:20-31 | a result is the queried element or one of its ancestors; its path is non-empty, trimmed, and is that element's own sibling-scan result |
| `Utils.FindTargetFindsFirstAnnotated` | src/utils.ts:20-31 | the result is the first element in the ancestry, innermost first, whose scan gives a non-empty path, paired with that path; an empty path (a bare `BEGIN`) counts as not found |
| `Utils.FindTargetNotFound` | src/utils.ts:20-31 | undefined when neither the element nor any ancestor has a non-empty annotation |
| `Utils.EndCommentStopsSearchExample` | src/utils.ts:9-10 | an element after `BEGIN a`, an element and `END a` finds nothing: the `END` comment ends the search |
| `Utils.PlainCommentStopsSearchExample` | src/utils.ts:9-10 | an element after `BEGIN a` and a plain comment finds nothing: the nearest comment decides, even inside an open region |
| `Utils.IsKeyActive` | src/utils.ts:33-43 | `shift`, `control`, `alt` and `meta` are answered by the modifier state under `Shift`, `Control`, `Alt` and `Meta`, with `event.key` ignored; any other name is active exactly when it equals `event.key` lower-cased |
| `Utils.UpperCaseKeyNeverActive` | src/utils.ts:41 | a key name other than the four modifiers that holds an upper-case letter is never active, since `event.key` is lower-cased before the comparison |
| `Utils.CapitalizedModifierNames` | src/utils.ts:39 | the four modifier names capitalise to the names `getModifierState` expects |
| `Editor.EditorUrl` | src/rails-inspector.ts:191 | the URL starts with `urlPrefix + root + "/"` and continues with exactly the path |
| `Editor.EditorUrlRoundTrip` | src/template-inspector.ts:132 | the path can always be read back from the URL, and a URL that reads as a path is the one built from it |
| `Dropdown.Basename` | src/rails-inspector-dropdown.ts:4-7 | the label is the slash-free suffix after the last `/`: the whole string if it has no `/`, empty if it ends in `/` |
| `Dropdown.BasenameOfJoined` | src/rails-inspector-dropdown.ts:4-7 | the label of `dir + "/" + file`, where `file` has no `/`, is `file` |
| `Dropdown.Reversed` | src/rails-inspector-dropdown.ts:30 | the reversed copy has the same length, with item `i` taken from position `n - 1 - i` |
| `Dropdown.DropdownItems` | src/rails-inspector-dropdown.ts:28-31 | there are `1 + |parentPaths|` items; item 0 is `currentPath` and item `i >= 1` is `parentPaths[|parentPaths| - i]` |
| `Dropdown.RailsInspectorDropdown.constructor` | src/rails-inspector-dropdown.ts:18-25 | no parent paths, an empty current path, and the menu closed |
| `Dropdown.RailsInspectorDropdown.ToggleDropdown` | src/rails-inspector-dropdown.ts:57-61 | negates `dropdownOpen` and changes nothing else |
| `Dropdown.RailsInspectorDropdown.DispatchOpen` | src/rails-inspector-dropdown.ts:70-77 | the `open` event carries the path and bubbles out of the shadow root |
| `Dropdown.RailsInspectorDropdown.HandleDropdownItemClick` | src/rails-inspector-dropdown.ts:63-68 | closes the menu and emits an `open` event for exactly the given path |
| `Dropdown.RailsInspectorDropdown.ClickItem` | src/rails-inspector-dropdown.ts:43-47 | clicking item `i` closes the menu and emits the current path for `i = 0`, and otherwise `parentPaths[|parentPaths| - i]` |
| `Dropdown.ToggleTwice` | src/rails-inspector-dropdown.ts:57-61 | two toggles restore `dropdownOpen` and change no other field |
| `RailsInspectorComponent.RailsInspector.constructor` | src/rails-inspector.ts:20-45 | the defaults: disabled, overlay hidden, no result, no parent paths, prefix `vscode://file`, root `/`, combo `meta-shift-v` |
| `RailsInspectorComponent.RailsInspector.Enable` | src/rails-inspector.ts:114-118 | enabled and listening; the overlay is left as it was |
| `RailsInspectorComponent.RailsInspector.Disable` | src/rails-inspector.ts:120-125 | disabled, overlay hidden and not listening, from any state |
| `RailsInspectorComponent.RailsInspector.Toggle` | src/rails-inspector.ts:127-129 | negates `enabled`; the overlay is hidden if it was enabled and unchanged otherwise |
| `RailsInspectorComponent.RailsInspector.HandleMove` | src/rails-inspector.ts:166-179 | over an element, `result` becomes `findTarget`'s answer and the overlay is visible exactly when there is one; parent paths are replaced only when a result exists; a non-element target changes nothing |
| `RailsInspectorComponent.RailsInspector.HandleMouseMoveButton` | src/rails-inspector.ts:181-184 | hides the overlay |
| `RailsInspectorComponent.RailsInspector.HandleClick` | src/rails-inspector.ts:186-194 | on an annotated target, opens `urlPrefix + root + "/" + path` and ends disabled unless `notAutoDisable`; otherwise opens nothing and changes nothing |
| `RailsInspectorComponent.RailsInspector.HandleOpen` | src/rails-inspector.ts:196-199 | opens the chosen path's URL and disables unless `notAutoDisable` |
| `RailsInspectorComponent.RailsInspector.HandleKeyDown` | src/rails-inspector.ts:205-214 | `Escape`/`Esc` disables an enabled inspector and never enables; any other key toggles exactly when the combo holds, and otherwise changes nothing |
| `RailsInspectorComponent.ToggleTwice` | src/rails-inspector.ts:127-129 | two toggles restore `enabled`, always leave the overlay hidden, and leave the result and parent paths unchanged |
| `TemplateInspectorComponent.TemplateInspector.constructor` | src/template-inspector.ts:28-47 | the defaults: disabled, overlay hidden, no path, no target element |
| `TemplateInspectorComponent.TemplateInspector.Enable` | src/template-inspector.ts:76-80 | enabled and listening; overlay unchanged |
| `TemplateInspectorComponent.TemplateInspector.Disable` | src/template-inspector.ts:82-87 | disabled and overlay hidden |
| `TemplateInspectorComponent.TemplateInspector.Toggle` | src/template-inspector.ts:89-91 | negates `enabled` |
| `TemplateInspectorComponent.TemplateInspector.HandleMove` | src/template-inspector.ts:116-126 | the path becomes the result's path or none, and the overlay is visible exactly when a result exists; the remembered element changes only when a result exists |
| `TemplateInspectorComponent.TemplateInspector.HandleClick` | src/template-inspector.ts:128-134 | on an annotated target, opens `urlPrefix + root + "/" + path`; it changes no field |
| `TemplateInspectorComponent.TemplateInspector.HandleKeyDown` | src/template-inspector.ts:136-145 | `Escape`/`Esc` disables only if enabled and returns before the combo check; a combo toggles |

## Left out

- Rendering: `render`, the CSS, `styleMap`, the breadcrumb and button components. They only map paths to markup.
- Positioning: `_overlayStyle` and `updateTooltipPosition`. These are floating-point geometry and asynchronous library calls.
- `throttle`: every pointer move reaches `HandleMove` directly, and a throttled call that arrives late is not modelled.
- Listener registration and removal appear only as the ghost flag `listening`. `connectedCallback` and `disconnectedCallback` are not modelled.
- `isCombo` and `findParentTargets` appear only as parameters. Their bodies are not part of this model.
- Side effects: `window.open`, `dispatchEvent` and `console.*` become returned values or are dropped. `preventDefault` and `stopPropagation` are dropped.
- `JsString.ToLower`, `JsString.Capitalize`: case mapping covers ASCII letters only, not the full Unicode mapping of `toLowerCase` and `toUpperCase`.
- `JsString.Split`: only the one-character separator the code uses is modelled.
- A handler whose event has no target: `findTarget` would throw a `TypeError` before any assignment. The model treats this as no change and nothing opened.
- `autoDisable`: it is a field with its default, and only `connectedCallback` reads it (for a deprecation warning).
