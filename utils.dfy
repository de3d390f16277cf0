/** The annotation lookup of `src/utils.ts`: finding the template path that a
    `BEGIN` comment before an element announces, on the element or on its
    nearest annotated ancestor, and matching one key name of a key combo. */
module Utils {
  import opened Wrappers
  import opened JsString

  /** A DOM node as the sibling scan sees it: its `nodeName` is `#comment`
      exactly for comment nodes, and only a comment's text is read. */
  datatype Node = Comment(data: string) | Text(data: string) | Element(tagName: string)

  /** An element in its document: the siblings before it in document order
      (the last of them is its `previousSibling`) and its `parentElement`. */
  datatype Elem = Elem(tagName: string, preceding: seq<Node>, parent: Option<Elem>)

  /** `FindTargetResult`: the annotated element and the path it carries. */
  datatype Target = Target(element: Elem, path: string)

  /** A keyboard event: its `key` and what `getModifierState` answers. */
  datatype KeyEvent = KeyEvent(key: string, modifierState: map<string, bool>)

  const BeginMarker := "BEGIN"

  /** `findPreviousAnnotateComment`, applied to a node whose preceding
      siblings are `preceding`: it steps back over non-comment siblings and
      decides on the first comment it meets. */
  function FindPreviousAnnotateComment(preceding: seq<Node>): (r: Option<string>)
    ensures preceding == [] ==> r == None
    ensures r.Some? ==> IsTrimmed(r.value)
    decreases |preceding|
  {
    if preceding == [] then None
    else
      var prev := preceding[|preceding| - 1];
      if !prev.Comment? then FindPreviousAnnotateComment(preceding[..|preceding| - 1])
      else if !StartsWith(Trim(prev.data), BeginMarker) then None
      else Some(Trim(RemoveFirst(prev.data, BeginMarker)))
  }

  /** What a comment announces, stated independently of `replace`: a comment
      whose trimmed text starts with `BEGIN` announces the rest of that
      trimmed text, trimmed again; any other comment announces nothing. */
  function MarkerPath(comment: string): Option<string> {
    var t := Trim(comment);
    if StartsWith(t, BeginMarker) then Some(Trim(t[|BeginMarker|..])) else None
  }

  /** In a comment whose trimmed text starts with `BEGIN`, the first
      `BEGIN` sits right after the leading whitespace, which cannot hold
      one. */
  lemma FirstBeginAfterWhitespace(data: string)
    requires StartsWith(Trim(data), BeginMarker)
    ensures IndexOf(data, BeginMarker) == Some(TrimStart(data))
  {
    var k := TrimStart(data);
    assert data[k..k + 5] == Trim(data)[..5];
    assert MatchesAt(data, BeginMarker, k);
    forall j: nat | j < k ensures !MatchesAt(data, BeginMarker, j) {
      NoMarkerAtWhitespace(data, j);
    }
  }

  lemma NoMarkerAtWhitespace(s: string, j: nat)
    requires j < |s| && IsWhitespace(s[j])
    ensures !MatchesAt(s, BeginMarker, j)
  {
  }

  /** Removing the first `BEGIN` from such a comment cuts exactly the
      marker out of its trimmed text and keeps the padding around it. */
  lemma RemoveBeginKeepsPadding(data: string)
    requires StartsWith(Trim(data), BeginMarker)
    ensures RemoveFirst(data, BeginMarker) ==
      LeadingWhitespace(data) + Trim(data)[|BeginMarker|..] + TrailingWhitespace(data)
  {
    FirstBeginAfterWhitespace(data);
    var b, e := TrimStart(data), TrimEnd(data);
    assert data[b + 5..] == data[b + 5..e] + data[e..];
  }

  /** Removing the first `BEGIN` from a comment whose trimmed text starts
      with `BEGIN` and trimming leaves the text after that prefix, trimmed. */
  lemma RemoveBeginThenTrim(data: string)
    requires StartsWith(Trim(data), BeginMarker)
    ensures Trim(RemoveFirst(data, BeginMarker)) == Trim(Trim(data)[|BeginMarker|..])
  {
    TrimPadding(data);
    RemoveBeginKeepsPadding(data);
    TrimIgnoresPadding(LeadingWhitespace(data), Trim(data)[5..], TrailingWhitespace(data));
  }

  /** The search is decided by the last comment among the preceding
      siblings (the first one met walking back): the siblings after it are
      skipped whatever they are, and those before it are never examined. */
  lemma {:induction false} LastCommentDecides(preceding: seq<Node>, k: nat)
    requires k < |preceding| && preceding[k].Comment?
    requires forall j :: k < j < |preceding| ==> !preceding[j].Comment?
    ensures FindPreviousAnnotateComment(preceding) == MarkerPath(preceding[k].data)
    decreases |preceding|
  {
    if k < |preceding| - 1 {
      LastCommentDecides(preceding[..|preceding| - 1], k);
    } else if StartsWith(Trim(preceding[k].data), BeginMarker) {
      RemoveBeginThenTrim(preceding[k].data);
    }
  }

  /** Without any comment before it, a node announces nothing. */
  lemma {:induction false} NoCommentNoPath(preceding: seq<Node>)
    requires forall j :: 0 <= j < |preceding| ==> !preceding[j].Comment?
    ensures FindPreviousAnnotateComment(preceding) == None
    decreases |preceding|
  {
    if preceding != [] {
      NoCommentNoPath(preceding[..|preceding| - 1]);
    }
  }

  /** The element and its ancestors, innermost first, following
      `parentElement` until there is none. */
  function Ancestry(e: Elem): (chain: seq<Elem>)
    ensures |chain| >= 1 && chain[0] == e
    decreases e
  {
    match e.parent
    case None => [e]
    case Some(p) => [e] + Ancestry(p)
  }

  /** `findTarget` treats an element as annotated when its own sibling scan
      yields a non-empty path: `if (path)` rejects both undefined and "". */
  predicate Annotated(e: Elem) {
    var p := FindPreviousAnnotateComment(e.preceding);
    p.Some? && p.value != []
  }

  /** `findTarget`: the element itself or the nearest ancestor that is
      annotated, paired with its path. */
  function FindTarget(e: Elem): (r: Option<Target>)
    ensures r.Some? ==> r.value.element in Ancestry(e)
    ensures r.Some? ==> r.value.path != [] && IsTrimmed(r.value.path)
    ensures r.Some? ==>
      FindPreviousAnnotateComment(r.value.element.preceding) == Some(r.value.path)
    decreases e
  {
    var path := FindPreviousAnnotateComment(e.preceding);
    if path.Some? && path.value != [] then Some(Target(e, path.value))
    else
      match e.parent
      case None => None
      case Some(p) => FindTarget(p)
  }

  /** `findTarget` answers with the first annotated element of the ancestry,
      innermost first, and that element's own path. */
  lemma {:induction false} FindTargetFindsFirstAnnotated(e: Elem, k: nat)
    requires k < |Ancestry(e)| && Annotated(Ancestry(e)[k])
    requires forall j :: 0 <= j < k ==> !Annotated(Ancestry(e)[j])
    ensures FindTarget(e) ==
      Some(Target(Ancestry(e)[k], FindPreviousAnnotateComment(Ancestry(e)[k].preceding).value))
    decreases e
  {
    if k > 0 {
      assert !Annotated(Ancestry(e)[0]);
      var p := e.parent.value;
      assert Ancestry(e)[1..] == Ancestry(p);
      forall j | 0 <= j < k - 1 ensures !Annotated(Ancestry(p)[j]) {
        assert Ancestry(p)[j] == Ancestry(e)[j + 1];
      }
      FindTargetFindsFirstAnnotated(p, k - 1);
    }
  }

  /** When neither the element nor any ancestor is annotated, `findTarget`
      returns undefined. */
  lemma {:induction false} FindTargetNotFound(e: Elem)
    requires forall j :: 0 <= j < |Ancestry(e)| ==> !Annotated(Ancestry(e)[j])
    ensures FindTarget(e) == None
    decreases e
  {
    assert !Annotated(Ancestry(e)[0]);
    match e.parent
    case None =>
    case Some(p) =>
      assert Ancestry(e)[1..] == Ancestry(p);
      forall j | 0 <= j < |Ancestry(p)| ensures !Annotated(Ancestry(p)[j]) {
        assert Ancestry(p)[j] == Ancestry(e)[j + 1];
      }
      FindTargetNotFound(p);
  }

  /** The key test both inspectors' `_handleKeyDown` start with:
      `['Escape', 'Esc'].includes(event.key)`. */
  predicate IsEscape(key: string) {
    key == "Escape" || key == "Esc"
  }

  /** `event.getModifierState(name)`: false for a modifier it does not
      report. */
  function GetModifierState(event: KeyEvent, name: string): bool {
    name in event.modifierState && event.modifierState[name]
  }

  lemma CapitalizedModifierNames()
    ensures Capitalize("shift") == "Shift" && Capitalize("control") == "Control"
    ensures Capitalize("alt") == "Alt" && Capitalize("meta") == "Meta"
  {
    assert ToUpperChar('s') == 'S' && ToUpperChar('c') == 'C';
    assert ToUpperChar('a') == 'A' && ToUpperChar('m') == 'M';
  }

  /** `isKeyActive`: the four modifier names are answered by the modifier
      state under their capitalised name, whatever `event.key` is; any other
      name must equal `event.key` lower-cased. */
  function IsKeyActive(key: string, event: KeyEvent): (active: bool)
    ensures key == "shift" ==> active == GetModifierState(event, "Shift")
    ensures key == "control" ==> active == GetModifierState(event, "Control")
    ensures key == "alt" ==> active == GetModifierState(event, "Alt")
    ensures key == "meta" ==> active == GetModifierState(event, "Meta")
    ensures key !in {"shift", "control", "alt", "meta"} ==> (active <==> key == ToLower(event.key))
  {
    if key == "shift" || key == "control" || key == "alt" || key == "meta" then
      CapitalizedModifierNames();
      GetModifierState(event, Capitalize(key))
    else
      key == ToLower(event.key)
  }

  /** A key name other than the four modifiers that holds an upper-case
      letter never matches, since it is compared with a lower-cased key. */
  lemma UpperCaseKeyNeverActive(key: string, event: KeyEvent, j: nat)
    requires key !in {"shift", "control", "alt", "meta"}
    requires j < |key| && IsAsciiUpper(key[j])
    ensures !IsKeyActive(key, event)
  {
    ToLowerHasNoUpper(event.key);
  }

  /** A plain comment between a `BEGIN` marker and the element is the
      nearest comment, does not start with `BEGIN`, and so ends the search
      with nothing found, although the element lies inside region `a`. */
  lemma PlainCommentStopsSearchExample()
    ensures FindTarget(Elem("div", [Comment("BEGIN a"), Comment(" note ")], None)) == None
  {
    assert " note " == " " + "note" + " ";
    TrimOfPadded(" ", "note", " ");
  }

  /** An element after a closed region: the nearest comment is `END a`,
      which does not start with `BEGIN`, so the search gives up there and
      does not look at `BEGIN a`. */
  lemma EndCommentStopsSearchExample()
    ensures var y := Elem("span", [Comment("BEGIN a"), Element("DIV"), Comment("END a")], None);
      FindTarget(y) == None
  {
    var y := Elem("span", [Comment("BEGIN a"), Element("DIV"), Comment("END a")], None);
    assert "END a" == "" + "END a" + "";
    TrimOfPadded("", "END a", "");
  }
}
