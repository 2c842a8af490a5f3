/**
 * hooks/useVaultAutocomplete.ts: the "+name" autocomplete of the chat input.
 * Typing `+` at the start of the text or after white space opens a list of
 * vault items filtered by what follows; choosing one splices a slug token
 * into the text.
 *
 * The textarea's value and `selectionStart` are fields of the editor, next to
 * the hook's state; the dropdown position and the 150 ms debounce are not modelled.
 */
module VaultAutocomplete {
  import opened Wrappers
  import JsString
  import WhitespaceRuns
  import VaultPolicy

  datatype VaultItem = VaultItem(id: string, itemType: VaultPolicy.RefType, name: string, allowInChat: bool)

  // Trigger detection: `/(?:^|\s)\+([A-Za-z0-9_-]*)$/` on the text before the cursor

  /** The class `[A-Za-z0-9_-]`. */
  predicate IsQueryChar(c: char) {
    ('A' <= c <= 'Z') || ('a' <= c <= 'z') || ('0' <= c <= '9') || c == '_' || c == '-'
  }

  /** The pattern matches `before` with its `+` at index `p`. */
  predicate TriggerAt(before: string, p: int) {
    && 0 <= p < |before| && before[p] == '+'
    && (p == 0 || JsString.IsJsSpace(before[p - 1]))
    && forall j :: p < j < |before| ==> IsQueryChar(before[j])
  }

  /** Where the run of query characters that ends `s` begins. */
  function QueryRunStart(s: string): (k: nat)
    ensures k <= |s|
    ensures forall j :: k <= j < |s| ==> IsQueryChar(s[j])
    ensures k > 0 ==> !IsQueryChar(s[k - 1])
  {
    if s == [] || !IsQueryChar(s[|s| - 1]) then |s| else QueryRunStart(s[..|s| - 1])
  }

  /** The index of the `+` the pattern matches, if it matches. */
  function MatchTrigger(before: string): (r: Option<nat>)
    ensures r.Some? ==> TriggerAt(before, r.value)
    ensures r.None? ==> forall p :: !TriggerAt(before, p)
  {
    var k := QueryRunStart(before);
    if k > 0 && before[k - 1] == '+' && (k - 1 == 0 || JsString.IsJsSpace(before[k - 2])) then Some(k - 1)
    else None
  }

  /** At most one `+` can start a match: the match, when there is one, is determined by the text. */
  lemma TriggerUnique(before: string, p: int, q: int)
    requires TriggerAt(before, p) && TriggerAt(before, q)
    ensures p == q
  {
  }

  // Filtering

  /** The filter: allowed in chat, and the lowercased name contains the lowercased query. */
  predicate Matches(item: VaultItem, query: string) {
    item.allowInChat && JsString.Includes(JsString.ToLower(item.name), JsString.ToLower(query))
  }

  /** `catalog.filter(...)`, in catalog order. */
  function Matching(catalog: seq<VaultItem>, query: string): (r: seq<VaultItem>)
    ensures |r| <= |catalog|
    ensures forall x :: x in r <==> x in catalog && Matches(x, query)
  {
    if catalog == [] then []
    else if Matches(catalog[0], query) then [catalog[0]] + Matching(catalog[1..], query)
    else Matching(catalog[1..], query)
  }

  /** Filtering keeps the order of the catalog: it distributes over concatenation. */
  lemma {:induction false} MatchingAppend(a: seq<VaultItem>, b: seq<VaultItem>, query: string)
    ensures Matching(a + b, query) == Matching(a, query) + Matching(b, query)
    decreases |a|
  {
    if a != [] {
      assert (a + b)[0] == a[0] && (a + b)[1..] == a[1..] + b;
      MatchingAppend(a[1..], b, query);
      if Matches(a[0], query) {
        assert Matching(a + b, query) == [a[0]] + Matching(a[1..] + b, query);
      } else {
        assert Matching(a + b, query) == Matching(a[1..] + b, query);
      }
    } else {
      assert a + b == b;
    }
  }

  const MaxSuggestions := 10

  /** `filtered.slice(0, 10)`. */
  function FilterItems(catalog: seq<VaultItem>, query: string): (r: seq<VaultItem>)
    ensures |r| <= MaxSuggestions
    ensures var m := Matching(catalog, query);
      |r| == (if |m| < MaxSuggestions then |m| else MaxSuggestions) && r == m[..|r|]
    ensures forall x :: x in r ==> x in catalog && Matches(x, query)
  {
    var m := Matching(catalog, query);
    var r := m[..if |m| < MaxSuggestions then |m| else MaxSuggestions];
    assert forall x :: x in r ==> x in m;
    r
  }

  /** The fixed catalog the hook searches. */
  const MockItems := [
    VaultItem("bio-1", VaultPolicy.Bio, "Bio", true),
    VaultItem("folder-1", VaultPolicy.Folder, "Family", true),
    VaultItem("folder-2", VaultPolicy.Folder, "Projects", true),
    VaultItem("file-1", VaultPolicy.File, "Recipes", true),
    VaultItem("file-2", VaultPolicy.File, "Finance", false)
  ]

  /** The item not allowed in chat is never offered. */
  lemma FinanceNeverOffered(query: string)
    ensures forall x :: x in FilterItems(MockItems, query) ==> x.name != "Finance"
  {
  }

  // Tokens

  /** `"+" + name.toLowerCase().replace(/\s+/g, "-")`. */
  function Token(name: string): (r: string)
    ensures |r| >= 1 && r[0] == '+'
    ensures forall i :: 0 <= i < |r| ==> !JsString.IsJsSpace(r[i])
  {
    var slug := WhitespaceRuns.ReplaceRuns(JsString.ToLower(name), JsString.IsJsSpace, '-');
    WhitespaceRuns.ReplaceRunsShape(JsString.ToLower(name), JsString.IsJsSpace, '-');
    "+" + slug
  }

  /** A name without white space gives its lowercased self; otherwise every character but `-` comes from the lowercased name. */
  lemma TokenSpec(name: string)
    ensures (forall i :: 0 <= i < |name| ==> !JsString.IsJsSpace(name[i])) ==> Token(name) == "+" + JsString.ToLower(name)
    ensures forall c :: c in Token(name)[1..] && c != '-' ==> c in JsString.ToLower(name)
  {
    var lower := JsString.ToLower(name);
    forall c | c in Token(name)[1..] && c != '-' ensures c in lower {
      WhitespaceRuns.CharsFromInput(lower, JsString.IsJsSpace, '-', c);
    }
    if forall i :: 0 <= i < |name| ==> !JsString.IsJsSpace(name[i]) {
      assert forall i :: 0 <= i < |lower| ==> !JsString.IsJsSpace(lower[i]) by {
        forall i | 0 <= i < |lower| ensures !JsString.IsJsSpace(lower[i]) {
          assert lower[i] == JsString.LowerChar(name[i]);
        }
      }
      WhitespaceRuns.ReplaceRunsFixed(lower, JsString.IsJsSpace, '-');
    }
  }

  // The editor

  datatype Key = ArrowDown | ArrowUp | Enter | Escape | OtherKey

  /** `(i + 1) % n`: the next index, wrapping from the last to the first. */
  function NextIndex(i: nat, n: nat): (r: nat)
    requires n > 0
    ensures r < n
  {
    (i + 1) % n
  }

  /** `(i - 1 + n) % n`: the previous index, wrapping from the first to the last. */
  function PrevIndex(i: nat, n: nat): (r: nat)
    requires n > 0
    ensures r < n
  {
    (i - 1 + n) % n
  }

  /** Down moves to the next item and wraps from the last to the first; up moves back and wraps from the first to the last. */
  lemma ArrowSteps(i: nat, n: nat)
    requires i < n
    ensures NextIndex(i, n) == if i + 1 < n then i + 1 else 0
    ensures PrevIndex(i, n) == if i == 0 then n - 1 else i - 1
  {
    ModUnique(i + 1, n, if i + 1 < n then 0 else 1, if i + 1 < n then i + 1 else 0);
    ModUnique(i - 1 + n, n, if i == 0 then 0 else 1, if i == 0 then n - 1 else i - 1);
  }

  /** Euclidean division has one remainder. */
  lemma ModUnique(x: int, n: int, d: int, m: int)
    requires n > 0 && 0 <= m < n && x == d * n + m
    ensures x % n == m
  {
    var d0, m0 := x / n, x % n;
    assert x == d0 * n + m0;
    assert (d - d0) * n == m0 - m;
    if d > d0 {
      MulAtLeast(d - d0, n);
    } else if d < d0 {
      MulAtLeast(d0 - d, n);
    }
  }

  lemma MulAtLeast(a: int, n: int)
    requires a >= 1 && n > 0
    ensures a * n >= n
  {
  }

  /** Up undoes down and down undoes up, for any in-range selection. */
  lemma ArrowsInverse(i: nat, n: nat)
    requires i < n
    ensures PrevIndex(NextIndex(i, n), n) == i
    ensures NextIndex(PrevIndex(i, n), n) == i
  {
    ArrowSteps(i, n);
    ArrowSteps(NextIndex(i, n), n);
    ArrowSteps(PrevIndex(i, n), n);
  }

  /** `k` presses of ArrowDown. */
  function PressDown(i: nat, n: nat, k: nat): (r: nat)
    requires n > 0
    decreases k
  {
    if k == 0 then i else NextIndex(PressDown(i, n, k - 1), n)
  }

  /** `k` presses of ArrowDown from `i` land on `(i + k) % n`. */
  lemma {:induction false} PressDownMod(i: nat, n: nat, k: nat)
    requires i < n
    ensures PressDown(i, n, k) == (i + k) % n
    decreases k
  {
    if k == 0 {
      ModUnique(i, n, 0, i);
    } else {
      PressDownMod(i, n, k - 1);
      ArrowSteps((i + k - 1) % n, n);
      ModStep(i + k - 1, n);
    }
  }

  /** Adding one to a number adds one to its remainder, wrapping at `n`. */
  lemma ModStep(x: nat, n: nat)
    requires n > 0
    ensures (x + 1) % n == if x % n + 1 < n then x % n + 1 else 0
  {
    var d, m := x / n, x % n;
    assert x == d * n + m;
    if m + 1 < n {
      ModUnique(x + 1, n, d, m + 1);
    } else {
      assert x + 1 == (d + 1) * n + 0;
      ModUnique(x + 1, n, d + 1, 0);
    }
  }

  /** Selection is cyclic: `n` presses of ArrowDown come back to where they started. */
  lemma PressDownCycles(i: nat, n: nat)
    requires i < n
    ensures PressDown(i, n, n) == i
  {
    PressDownMod(i, n, n);
    ModUnique(i + n, n, 1, i);
  }

  class Editor {
    /** The textarea's value and selection start. */
    var text: string
    var cursor: nat
    var isOpen: bool
    var query: string
    var items: seq<VaultItem>
    var selectedIndex: nat
    var triggerPos: Option<int>

    predicate Valid()
      reads this
    {
      cursor <= |text|
    }

    constructor ()
      ensures Valid()
      ensures text == "" && cursor == 0 && !isOpen && query == "" && items == []
      ensures selectedIndex == 0 && triggerPos == None
    {
      text := "";
      cursor := 0;
      isOpen := false;
      query := "";
      items := [];
      selectedIndex := 0;
      triggerPos := None;
    }

    /** `handleInput`, run on every `input` event. */
    method HandleInput()
      requires Valid()
      modifies this`query, this`triggerPos, this`isOpen, this`selectedIndex
      ensures Valid()
      ensures MatchTrigger(text[..cursor]).Some? ==>
        var p := MatchTrigger(text[..cursor]).value;
        && isOpen && selectedIndex == 0 && triggerPos == Some(p)
        && query == text[p + 1..cursor]
      ensures MatchTrigger(text[..cursor]).None? ==>
        !isOpen && triggerPos == None && query == old(query) && selectedIndex == old(selectedIndex)
    {
      var textBeforeCursor := JsString.Slice(text, 0, cursor);
      assert textBeforeCursor == text[..cursor];
      var m := MatchTrigger(textBeforeCursor);
      if m.Some? {
        var queryText := textBeforeCursor[m.value + 1..];
        query := queryText;
        triggerPos := Some(cursor - |queryText| - 1);
        isOpen := true;
        selectedIndex := 0;
      } else {
        isOpen := false;
        triggerPos := None;
      }
    }

    /** The user edits the text: the textarea gets a new value and selection, then `input` fires. */
    method Input(newText: string, newCursor: nat)
      requires newCursor <= |newText|
      modifies this
      ensures Valid() && text == newText && cursor == newCursor
      ensures items == old(items)
      ensures MatchTrigger(newText[..newCursor]).Some? ==>
        var p := MatchTrigger(newText[..newCursor]).value;
        isOpen && selectedIndex == 0 && triggerPos == Some(p) && query == newText[p + 1..newCursor]
      ensures MatchTrigger(newText[..newCursor]).None? ==>
        !isOpen && triggerPos == None && query == old(query) && selectedIndex == old(selectedIndex)
    {
      text := newText;
      cursor := newCursor;
      HandleInput();
    }

    /** The caret moves without an edit (a click): no `input` event, so the hook's state stays. */
    method MoveCursor(newCursor: nat)
      requires newCursor <= |text|
      modifies this`cursor
      ensures Valid() && cursor == newCursor
    {
      cursor := newCursor;
    }

    /** The effect on `[query, isOpen]`: while open, the suggestions become the filtered catalog. */
    method RefreshItems()
      modifies this`items
      ensures isOpen ==> items == FilterItems(MockItems, query)
      ensures !isOpen ==> items == old(items)
    {
      if isOpen {
        items := FilterItems(MockItems, query);
      }
    }

    /** `onClose`. */
    method OnClose()
      modifies this`isOpen, this`triggerPos
      ensures !isOpen && triggerPos == None
    {
      isOpen := false;
      triggerPos := None;
    }

    /**
     * `onSelect`: replaces the text from the `+` to the caret with the token and
     * a space, puts the caret after the space, and closes the list. `inserted` is
     * the token handed to `onInsertToken`. The `input` event it dispatches runs
     * `handleInput` on the new text, which finds no trigger before the new caret.
     */
    method OnSelect(item: VaultItem) returns (inserted: Option<string>)
      requires Valid()
      modifies this
      ensures Valid()
      ensures old(triggerPos).None? ==>
        && inserted == None && text == old(text) && cursor == old(cursor)
        && isOpen == old(isOpen) && triggerPos == None && query == old(query)
        && selectedIndex == old(selectedIndex) && items == old(items)
      ensures old(triggerPos).Some? ==>
        var before := JsString.Slice(old(text), 0, old(triggerPos).value);
        var after := JsString.SliceFrom(old(text), old(cursor));
        && inserted == Some(Token(item.name))
        && text == before + Token(item.name) + " " + after
        && cursor == |before| + |Token(item.name)| + 1
        && !isOpen && triggerPos == None
        && query == old(query) && selectedIndex == old(selectedIndex) && items == old(items)
    {
      if triggerPos.None? {
        return None;
      }
      var before := JsString.Slice(text, 0, triggerPos.value);
      var after := JsString.SliceFrom(text, cursor);
      var token := Token(item.name);
      text := before + token + " " + after;
      cursor := |before| + |token| + 1;
      assert text[..cursor] == before + token + " ";
      NoTriggerAfterSpace(before + token + " ");
      HandleInput();
      inserted := Some(token);
      isOpen := false;
      triggerPos := None;
    }

    /** `onKeyDown`. The arrows need a non-empty list: with none, JavaScript's `% 0` gives `NaN`. */
    method OnKeyDown(key: Key) returns (inserted: Option<string>)
      requires Valid()
      requires isOpen && (key == ArrowDown || key == ArrowUp) ==> |items| > 0
      modifies this
      ensures Valid()
      ensures items == old(items) && query == old(query)
      ensures !old(isOpen) || key == OtherKey ==>
        && inserted == None && text == old(text) && cursor == old(cursor)
        && isOpen == old(isOpen) && triggerPos == old(triggerPos) && selectedIndex == old(selectedIndex)
      ensures old(isOpen) && (key == ArrowDown || key == ArrowUp) ==>
        && isOpen && inserted == None
        && text == old(text) && cursor == old(cursor) && triggerPos == old(triggerPos)
        && selectedIndex == (if key == ArrowDown then NextIndex(old(selectedIndex), |items|)
                             else PrevIndex(old(selectedIndex), |items|))
      ensures old(isOpen) && key == Escape ==>
        && !isOpen && triggerPos == None && inserted == None
        && text == old(text) && cursor == old(cursor) && selectedIndex == old(selectedIndex)
      ensures old(isOpen) && key == Enter && old(selectedIndex) < |old(items)| && old(triggerPos).Some? ==>
        var token := Token(old(items)[old(selectedIndex)].name);
        var before := JsString.Slice(old(text), 0, old(triggerPos).value);
        && inserted == Some(token)
        && text == before + token + " " + JsString.SliceFrom(old(text), old(cursor))
        && cursor == |before| + |token| + 1
        && !isOpen && triggerPos == None && selectedIndex == old(selectedIndex)
      ensures old(isOpen) && key == Enter && (old(selectedIndex) >= |old(items)| || old(triggerPos).None?) ==>
        && inserted == None && text == old(text) && cursor == old(cursor)
        && isOpen && triggerPos == old(triggerPos) && selectedIndex == old(selectedIndex)
    {
      inserted := None;
      if !isOpen {
        return;
      }
      match key {
        case ArrowDown =>
          selectedIndex := NextIndex(selectedIndex, |items|);
        case ArrowUp =>
          selectedIndex := PrevIndex(selectedIndex, |items|);
        case Enter =>
          if selectedIndex < |items| {
            inserted := OnSelect(items[selectedIndex]);
          }
        case Escape =>
          OnClose();
        case OtherKey =>
      }
    }
  }

  /** Text that ends in a space never holds a trigger. */
  lemma NoTriggerAfterSpace(s: string)
    requires s != [] && s[|s| - 1] == ' '
    ensures MatchTrigger(s).None?
  {
  }

  /** Choosing "Family" inserts "+family". */
  lemma TokenExample()
    ensures Token("Family") == "+family"
  {
    TokenSpec("Family");
    assert JsString.ToLower("Family") == "family";
  }
}
