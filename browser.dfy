/** The browser as the page objects see it, reduced to plain data: a
    selector is an opaque label, a page is the set of selectors currently
    visible plus the texts of the elements a query returns (a text may be
    `None`), and every click, fill, navigation and wait is recorded as an
    `Action` instead of being performed. */
module Browser {
  import opened Wrappers
  import opened Text
  import opened Search

  /** A CSS selector; the browser alone gives it meaning. */
  type Selector = string

  /** One effect a page object asks the browser for. */
  datatype Action =
    | Click(selector: Selector)                 // click the element the selector finds
    | ClickMatch(selector: Selector, index: nat) // click the index-th element a query returned
    | Fill(selector: Selector, text: string)    // type text into an input
    | NavigateTo(url: string)                   // load a URL directly
    | WaitForLoad                               // wait until the page has loaded

  /** What one page-object operation did: the effects in order, and the
      message of the exception it raised at the end, if it raised one. */
  datatype Run = Run(actions: seq<Action>, raised: Option<string>)

  /** Python truthiness of an element's `text_content()`: present and not
      the empty string. */
  predicate Truthy(text: Option<string>) {
    text.Some? && text.value != ""
  }

  /** `text_content() or ""`. */
  function OrEmpty(text: Option<string>): string {
    text.GetOr("")
  }

  /** `[t.strip() for t in texts if t]`: the stripped texts of the elements
      whose text is present and non-empty, in rendered order. */
  function StrippedTexts(texts: seq<Option<string>>): (r: seq<string>)
    ensures |r| <= |texts|
  {
    if texts == [] then []
    else (if Truthy(texts[0]) then [Strip(texts[0].value)] else []) + StrippedTexts(texts[1..])
  }

  /** Rendered order is kept: the texts of a concatenation are the texts of
      its parts, one after the other. */
  lemma {:induction false} StrippedTextsAppend(a: seq<Option<string>>, b: seq<Option<string>>)
    ensures StrippedTexts(a + b) == StrippedTexts(a) + StrippedTexts(b)
  {
    if a == [] {
      assert a + b == b;
    } else {
      var head := if Truthy(a[0]) then [Strip(a[0].value)] else [];
      assert (a + b)[0] == a[0];
      assert (a + b)[1..] == a[1..] + b;
      assert StrippedTexts(a + b) == head + StrippedTexts(a[1..] + b);
      StrippedTextsAppend(a[1..], b);
      assert StrippedTexts(a) == head + StrippedTexts(a[1..]);
    }
  }

  /** Element text `t` is present, non-empty, and strips to `x`. */
  ghost predicate StripsTo(t: Option<string>, x: string) {
    Truthy(t) && Strip(t.value) == x
  }

  lemma {:induction false} StrippedTextsMemberStripsTo(texts: seq<Option<string>>, x: string)
    ensures x in StrippedTexts(texts) <==> exists i :: 0 <= i < |texts| && StripsTo(texts[i], x)
  {
    if texts != [] {
      StrippedTextsMemberStripsTo(texts[1..], x);
      assert forall i :: 1 <= i < |texts| ==> texts[1..][i - 1] == texts[i];
      assert forall i :: 0 <= i < |texts[1..]| ==> texts[i + 1] == texts[1..][i];
    }
  }

  /** An entry is in the result exactly when some element has a present,
      non-empty text that strips to it. */
  lemma StrippedTextsMember(texts: seq<Option<string>>, x: string)
    ensures x in StrippedTexts(texts) <==>
      exists i :: 0 <= i < |texts| && Truthy(texts[i]) && Strip(texts[i].value) == x
  {
    StrippedTextsMemberStripsTo(texts, x);
    if i :| 0 <= i < |texts| && StripsTo(texts[i], x) {
      assert Truthy(texts[i]) && Strip(texts[i].value) == x;
    }
    if i :| 0 <= i < |texts| && Truthy(texts[i]) && Strip(texts[i].value) == x {
      assert StripsTo(texts[i], x);
    }
  }

  /** Nothing is dropped when every element has a non-empty text, and
      everything is dropped when none has. */
  lemma {:induction false} StrippedTextsLength(texts: seq<Option<string>>)
    ensures (forall i :: 0 <= i < |texts| ==> Truthy(texts[i])) ==> |StrippedTexts(texts)| == |texts|
    ensures StrippedTexts(texts) == [] <==> forall i :: 0 <= i < |texts| ==> !Truthy(texts[i])
  {
    if texts != [] {
      StrippedTextsLength(texts[1..]);
      assert forall i :: 1 <= i < |texts| ==> texts[1..][i - 1] == texts[i];
    }
  }

  /** The test of the selector-fallback loops: `is_element_visible(s)`. */
  function VisibleIn(visible: set<Selector>): Selector -> bool {
    s => s in visible
  }

  /** The index of the first candidate selector that is visible, if any. */
  function FirstVisible(candidates: seq<Selector>, visible: set<Selector>): (r: Option<nat>)
    ensures r.Some? ==> r.value < |candidates| && candidates[r.value] in visible
  {
    FirstMatch(candidates, VisibleIn(visible))
  }

  /** The selector that wins is visible and every one before it is not;
      nothing wins exactly when no candidate is visible. */
  lemma FirstVisibleSpec(candidates: seq<Selector>, visible: set<Selector>)
    ensures forall k: nat :: FirstVisible(candidates, visible) == Some(k) <==>
      k < |candidates| && candidates[k] in visible && forall j :: 0 <= j < k ==> candidates[j] !in visible
    ensures FirstVisible(candidates, visible) == None <==> forall j :: 0 <= j < |candidates| ==> candidates[j] !in visible
  {
    FirstMatchSpec(candidates, VisibleIn(visible));
  }

  /** `for selector in candidates: if is_element_visible(selector): ...`:
      the loop that picks the selector to act on. */
  method FindFirstVisible(candidates: seq<Selector>, visible: set<Selector>) returns (r: Option<nat>)
    ensures r == FirstVisible(candidates, visible)
  {
    r := FindFirst(candidates, VisibleIn(visible));
    FirstVisibleSpec(candidates, visible);
  }
}
