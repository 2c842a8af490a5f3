/**
 * lib/vaultPolicy.ts: resolving +Vault references into prompt context under a
 * character budget, and assembling the prompt that carries that context.
 *
 * The Firestore reads (`getVaultBio`, `listVaultFiles`) become a `Lookup` per
 * reference; what a reference yields is a `Fetch`: its content, or the
 * exception the `try` block catches.
 */
module VaultPolicy {
  import opened Wrappers
  import JsString

  datatype RefType = Bio | Folder | File

  /** A reference to a vault item carried by a chat message. */
  datatype VaultRef = VaultRef(id: string, refType: RefType, name: string)

  /** What the store answered for one reference: the bio's content and the names of a folder's files, or an exception. */
  datatype Lookup = Lookup(bioContent: Option<string>, folderFileNames: seq<string>) | LookupThrew

  /** The content one reference yields inside the loop's `try`, or the exception it catches. */
  datatype Fetch = Content(text: string) | Threw

  datatype Item = Item(source: string, content: string, chars: int)

  datatype VaultContext = VaultContext(items: seq<Item>, totalChars: int, exceeded: bool)

  /** The line the library writes under each file of a folder. */
  const LibraryFolderNote := "(File content would be fetched here)"

  /** `files.map(f => "File: " + name + "\n" + note).join("\n\n")`. */
  function FolderListing(names: seq<string>, note: string): (r: string)
    ensures names == [] <==> r == ""
  {
    var lines := seq(|names|, i requires 0 <= i < |names| => "File: " + names[i] + "\n" + note);
    assert names != [] ==> JsString.StartsWith(JsString.Join(lines, "\n\n"), lines[0]) by {
      if names != [] {
        if |lines| > 1 {
          assert JsString.Join(lines, "\n\n") == lines[0] + ("\n\n" + JsString.Join(lines[1..], "\n\n"));
        }
      }
    }
    JsString.Join(lines, "\n\n")
  }

  /** The `switch (ref.type)`: a file needs no read and never throws; a bio or folder read may throw. */
  function FetchContent(r: VaultRef, lookup: Lookup, folderNote: string): (f: Fetch)
    ensures f.Threw? <==> lookup.LookupThrew? && r.refType != File
    ensures r.refType == File ==> f == Content("File content for " + r.name + " (to be implemented)")
    ensures r.refType == Bio && lookup.Lookup? ==> f == Content(lookup.bioContent.GetOr(""))
    ensures r.refType == Folder && lookup.Lookup? ==> (f == Content("") <==> lookup.folderFileNames == [])
  {
    match r.refType
    case File => Content("File content for " + r.name + " (to be implemented)")
    case Bio => if lookup.LookupThrew? then Threw else Content(lookup.bioContent.GetOr(""))
    case Folder => if lookup.LookupThrew? then Threw else Content(FolderListing(lookup.folderFileNames, folderNote))
  }

  /**
   * `truncate`: text that fits is kept; otherwise `slice(0, maxChars - 3) + "..."`.
   * For `maxChars` below 3 the slice end is negative and counts from the end of the
   * text, so the result is longer than `maxChars`.
   */
  function Truncate(text: string, maxChars: int): (r: string)
    ensures |text| <= maxChars ==> r == text
    ensures |text| > maxChars ==> JsString.EndsWith(r, "...")
    ensures |text| > maxChars >= 3 ==> |r| == maxChars && r == text[..maxChars - 3] + "..."
    ensures |text| > maxChars && 0 < maxChars < 3 ==> |r| == |text| + maxChars && r == text[..|text| + maxChars - 3] + "..."
    ensures text != "" ==> r != ""
  {
    if |text| <= maxChars then text else JsString.Slice(text, 0, maxChars - 3) + "..."
  }

  /** The sum of the items' `chars`. */
  function SumChars(items: seq<Item>): int {
    if items == [] then 0 else SumChars(items[..|items| - 1]) + items[|items| - 1].chars
  }

  lemma SumCharsAppend(items: seq<Item>, it: Item)
    ensures SumChars(items + [it]) == SumChars(items) + it.chars
  {
    assert (items + [it])[..|items|] == items;
  }

  /** Every item records the length of its content, which is never empty. */
  predicate WellFormed(items: seq<Item>) {
    forall k :: 0 <= k < |items| ==> items[k].chars == |items[k].content| && items[k].content != ""
  }

  /** Every item was added while the total of the items before it was still under budget. */
  predicate AddedUnderBudget(items: seq<Item>, budget: int) {
    forall k :: 0 <= k < |items| ==> SumChars(items[..k]) < budget
  }

  /** One pass of the loop body for a reference while `total` is under budget. */
  function Step(items: seq<Item>, total: int, r: VaultRef, f: Fetch, budget: int): (p: (seq<Item>, int))
    ensures f.Threw? || f == Content("") ==> p == (items, total)
    ensures f.Content? && f.text != "" ==>
      var t := Truncate(f.text, budget - total);
      p == (items + [Item(r.name, t, |t|)], total + |t|) && t != ""
  {
    match f
    case Threw => (items, total)
    case Content(c) =>
      if c == "" then (items, total)
      else
        var t := Truncate(c, budget - total);
        (items + [Item(r.name, t, |t|)], total + |t|)
  }

  /** The loop from a position on, given the items and total gathered so far. */
  function ResolveFrom(refs: seq<VaultRef>, fetched: seq<Fetch>, budget: int, items: seq<Item>, total: int): VaultContext
    requires |fetched| == |refs|
    decreases |refs|
  {
    if refs == [] || total >= budget then VaultContext(items, total, total >= budget)
    else
      var p := Step(items, total, refs[0], fetched[0], budget);
      ResolveFrom(refs[1..], fetched[1..], budget, p.0, p.1)
  }

  /** The loop only appends, reports `exceeded` exactly when the total reached the budget, and keeps the total, the item shape and the stop rule. */
  lemma {:induction false} ResolveFromProps(refs: seq<VaultRef>, fetched: seq<Fetch>, budget: int, items: seq<Item>, total: int)
    requires |fetched| == |refs|
    ensures var c := ResolveFrom(refs, fetched, budget, items, total);
      && (c.exceeded <==> c.totalChars >= budget)
      && |items| <= |c.items| && c.items[..|items|] == items
      && (total == SumChars(items) ==> c.totalChars == SumChars(c.items))
      && (WellFormed(items) ==> WellFormed(c.items))
      && (total == SumChars(items) && AddedUnderBudget(items, budget) ==> AddedUnderBudget(c.items, budget))
    decreases |refs|
  {
    if refs != [] && total < budget {
      var p := Step(items, total, refs[0], fetched[0], budget);
      StepExtends(items, total, refs[0], fetched[0], budget);
      ResolveFromProps(refs[1..], fetched[1..], budget, p.0, p.1);
      var c := ResolveFrom(refs[1..], fetched[1..], budget, p.0, p.1);
      assert c.items[..|items|] == c.items[..|p.0|][..|items|];
    }
  }

  /** Under budget, the loop from position `i` on is one step and then the loop from `i + 1`. */
  lemma ResolveAdvance(refs: seq<VaultRef>, fetched: seq<Fetch>, budget: int, items: seq<Item>, total: int, i: nat)
    requires |fetched| == |refs| && i < |refs| && total < budget
    ensures var p := Step(items, total, refs[i], fetched[i], budget);
      ResolveFrom(refs[i..], fetched[i..], budget, items, total) == ResolveFrom(refs[i + 1..], fetched[i + 1..], budget, p.0, p.1)
  {
    assert refs[i..][1..] == refs[i + 1..] && fetched[i..][1..] == fetched[i + 1..];
    assert refs[i..][0] == refs[i] && fetched[i..][0] == fetched[i];
  }

  /** A step under budget only appends, and keeps the total, the item shape and the stop rule. */
  lemma StepExtends(items: seq<Item>, total: int, r: VaultRef, f: Fetch, budget: int)
    requires total < budget
    ensures var p := Step(items, total, r, f, budget);
      && |items| <= |p.0| && p.0[..|items|] == items
      && (total == SumChars(items) ==> p.1 == SumChars(p.0))
      && (WellFormed(items) ==> WellFormed(p.0))
      && (total == SumChars(items) && AddedUnderBudget(items, budget) ==> AddedUnderBudget(p.0, budget))
  {
    var p := Step(items, total, r, f, budget);
    if p.0 != items {
      SumCharsAppend(items, p.0[|items|]);
      assert p.0[..|items|] == items;
      assert forall k :: 0 <= k < |items| ==> p.0[..k] == items[..k];
    }
  }

  /** `resolveVaultContext` on the contents the references yield, in order. */
  function Resolve(refs: seq<VaultRef>, fetched: seq<Fetch>, budget: int): (c: VaultContext)
    requires |fetched| == |refs|
    ensures c.exceeded <==> c.totalChars >= budget
    ensures c.totalChars == SumChars(c.items)
    ensures WellFormed(c.items)
    ensures AddedUnderBudget(c.items, budget)
  {
    ResolveFromProps(refs, fetched, budget, [], 0);
    ResolveFrom(refs, fetched, budget, [], 0)
  }

  /** The loop of `resolveVaultContext`, with `break` once the budget is reached and `continue` past empty or failed references. */
  method ResolveVaultContext(refs: seq<VaultRef>, fetched: seq<Fetch>, budget: int) returns (c: VaultContext)
    requires |fetched| == |refs|
    ensures c == Resolve(refs, fetched, budget)
  {
    var items: seq<Item> := [];
    var totalChars := 0;
    var i := 0;
    while i < |refs|
      invariant 0 <= i <= |refs|
      invariant ResolveFrom(refs[i..], fetched[i..], budget, items, totalChars) == Resolve(refs, fetched, budget)
    {
      if totalChars >= budget {
        break;
      }
      ResolveAdvance(refs, fetched, budget, items, totalChars, i);
      if fetched[i].Threw? {
        i := i + 1;
        continue;
      }
      var content := fetched[i].text;
      if content == "" {
        i := i + 1;
        continue;
      }
      var remainingBudget := budget - totalChars;
      var truncatedContent := Truncate(content, remainingBudget);
      items := items + [Item(refs[i].name, truncatedContent, |truncatedContent|)];
      totalChars := totalChars + |truncatedContent|;
      i := i + 1;
    }
    c := VaultContext(items, totalChars, totalChars >= budget);
  }

  /** `t` can be obtained from `s` by deleting elements. */
  predicate Subsequence(t: seq<string>, s: seq<string>)
    decreases |s|
  {
    t == [] || (s != [] && ((t[0] == s[0] && Subsequence(t[1..], s[1..])) || Subsequence(t, s[1..])))
  }

  function Sources(items: seq<Item>): (r: seq<string>)
    ensures |r| == |items|
  {
    seq(|items|, k requires 0 <= k < |items| => items[k].source)
  }

  function Names(refs: seq<VaultRef>): (r: seq<string>)
    ensures |r| == |refs|
  {
    seq(|refs|, k requires 0 <= k < |refs| => refs[k].name)
  }

  lemma {:induction false} ResolveFromSources(refs: seq<VaultRef>, fetched: seq<Fetch>, budget: int, items: seq<Item>, total: int)
    requires |fetched| == |refs|
    ensures var c := ResolveFrom(refs, fetched, budget, items, total);
      |items| <= |c.items| && Subsequence(Sources(c.items[|items|..]), Names(refs))
    decreases |refs|
  {
    var c := ResolveFrom(refs, fetched, budget, items, total);
    ResolveFromProps(refs, fetched, budget, items, total);
    if refs == [] || total >= budget {
      assert c.items[|items|..] == [];
    } else {
      var p := Step(items, total, refs[0], fetched[0], budget);
      ResolveFromSources(refs[1..], fetched[1..], budget, p.0, p.1);
      StepExtends(items, total, refs[0], fetched[0], budget);
      ResolveFromProps(refs[1..], fetched[1..], budget, p.0, p.1);
      assert Names(refs)[1..] == Names(refs[1..]);
      var rest := Sources(c.items[|p.0|..]);
      if p.0 == items {
        assert Sources(c.items[|items|..]) == rest;
      } else {
        assert Sources(c.items[|items|..]) == [refs[0].name] + rest;
        assert Sources(c.items[|items|..])[1..] == rest;
      }
    }
  }

  /** Items come from the references in their order: the sources are the names of a subsequence of the references. */
  lemma SourcesInOrder(refs: seq<VaultRef>, fetched: seq<Fetch>, budget: int)
    requires |fetched| == |refs|
    ensures Subsequence(Sources(Resolve(refs, fetched, budget).items), Names(refs))
  {
    ResolveFromSources(refs, fetched, budget, [], 0);
    assert Resolve(refs, fetched, budget).items[0..] == Resolve(refs, fetched, budget).items;
  }

  /** A budget that is already spent yields no items and reports `exceeded`. */
  lemma NoBudgetNoItems(refs: seq<VaultRef>, fetched: seq<Fetch>, budget: int)
    requires |fetched| == |refs| && budget <= 0
    ensures Resolve(refs, fetched, budget) == VaultContext([], 0, true)
  {
  }

  /** References that all fail or yield nothing add no items, and the total stays zero. */
  lemma {:induction false} NothingFetched(refs: seq<VaultRef>, fetched: seq<Fetch>, budget: int, items: seq<Item>, total: int)
    requires |fetched| == |refs|
    requires forall k :: 0 <= k < |fetched| ==> fetched[k].Threw? || fetched[k] == Content("")
    ensures ResolveFrom(refs, fetched, budget, items, total) == VaultContext(items, total, total >= budget)
    decreases |refs|
  {
    if refs != [] && total < budget {
      NothingFetched(refs[1..], fetched[1..], budget, items, total);
    }
  }

  /**
   * The budget is not a bound on `totalChars`: with 1 character left, a 7-character
   * content is cut at `slice(0, -2)` and stored as 8 characters.
   */
  lemma OverBudgetExample()
    ensures var c := Resolve([VaultRef("b", Bio, "Bio"), VaultRef("f", File, "Notes")],
                             [Content("abcd"), Content("xyz1234")], 5);
      c.totalChars == 12 && c.exceeded && |c.items| == 2 && c.items[1].content == "xyz12..."
  {
    assert Truncate("abcd", 5) == "abcd";
    assert JsString.Slice("xyz1234", 0, -2) == "xyz12";
    assert Truncate("xyz1234", 1) == "xyz12...";
  }

  // Prompt assembly

  const SystemBlock := "System: You are a helpful, concise assistant. Keep answers safe and clear."
  const SafetyBlock := "Safety: Avoid harmful, private, or disallowed content."
  const VaultHeader := "User Context (from +Vault):"
  const TaskBlock := "Task:"
  const BlockSeparator := "\n\n"

  function SourceLine(it: Item): string {
    "- " + it.source + ":"
  }

  /** The two blocks per item, in item order. */
  function ItemBlocks(items: seq<Item>): (r: seq<string>)
    ensures |r| == 2 * |items|
  {
    if items == [] then []
    else ItemBlocks(items[..|items| - 1]) + [SourceLine(items[|items| - 1]), items[|items| - 1].content]
  }

  lemma {:induction false} ItemBlocksAt(items: seq<Item>, k: nat)
    requires k < |items|
    ensures ItemBlocks(items)[2 * k] == SourceLine(items[k])
    ensures ItemBlocks(items)[2 * k + 1] == items[k].content
    decreases |items|
  {
    if k < |items| - 1 {
      ItemBlocksAt(items[..|items| - 1], k);
    }
  }

  /** The vault section is emitted only for a present context with at least one item. */
  predicate HasVaultSection(ctx: Option<VaultContext>) {
    ctx.Some? && |ctx.value.items| > 0
  }

  /** The blocks `buildPromptWithVault` pushes. */
  function PromptBlocks(userText: string, ctx: Option<VaultContext>): seq<string> {
    [SystemBlock, SafetyBlock]
    + (if HasVaultSection(ctx) then [VaultHeader] + ItemBlocks(ctx.value.items) else [])
    + [TaskBlock, JsString.Trim(userText)]
  }

  /** The prompt text. */
  function Prompt(userText: string, ctx: Option<VaultContext>): string {
    JsString.Join(PromptBlocks(userText, ctx), BlockSeparator)
  }

  /** The push loop over the items: each item's source line, then its content. */
  method PushItemBlocks(blocks: seq<string>, items: seq<Item>) returns (out: seq<string>)
    ensures out == blocks + ItemBlocks(items)
  {
    out := blocks;
    for i := 0 to |items|
      invariant out == blocks + ItemBlocks(items[..i])
    {
      assert items[..i + 1][..i] == items[..i];
      out := out + [SourceLine(items[i])];
      out := out + [items[i].content];
    }
    assert items[..|items|] == items;
  }

  /** `buildPromptWithVault`: pushes the blocks one by one and joins them. */
  method BuildPromptWithVault(userText: string, ctx: Option<VaultContext>) returns (prompt: string)
    ensures prompt == Prompt(userText, ctx)
  {
    var blocks: seq<string> := [];
    blocks := blocks + [SystemBlock];
    blocks := blocks + [SafetyBlock];
    ghost var middle: seq<string> := [];
    if ctx.Some? && |ctx.value.items| > 0 {
      blocks := blocks + [VaultHeader];
      blocks := PushItemBlocks(blocks, ctx.value.items);
      middle := [VaultHeader] + ItemBlocks(ctx.value.items);
    }
    assert blocks == [SystemBlock, SafetyBlock] + middle;
    blocks := blocks + [TaskBlock];
    blocks := blocks + [JsString.Trim(userText)];
    assert blocks == PromptBlocks(userText, ctx);
    prompt := JsString.Join(blocks, BlockSeparator);
  }

  /** Where each part of a list of blocks without a section sits. */
  lemma FrameAt(a: string, b: string, c: string, d: string)
    ensures var x := [a, b] + [] + [c, d];
      |x| == 4 && x[0] == a && x[1] == b && x[|x| - 2] == c && x[|x| - 1] == d
  {
  }

  /** Where each part of a list of blocks with an item section sits. */
  lemma SectionAt(a: string, b: string, h: string, items: seq<Item>, c: string, d: string)
    ensures var x := [a, b] + ([h] + ItemBlocks(items)) + [c, d];
      && |x| == 5 + 2 * |items| && x[0] == a && x[1] == b && x[2] == h
      && x[|x| - 2] == c && x[|x| - 1] == d
      && forall k :: 0 <= k < |items| ==> x[3 + 2 * k] == SourceLine(items[k]) && x[4 + 2 * k] == items[k].content
  {
    var x := [a, b] + ([h] + ItemBlocks(items)) + [c, d];
    var blocks := ItemBlocks(items);
    assert forall j :: 0 <= j < |blocks| ==> x[3 + j] == blocks[j];
    forall k | 0 <= k < |items|
      ensures x[3 + 2 * k] == SourceLine(items[k]) && x[4 + 2 * k] == items[k].content
    {
      ItemBlocksAt(items, k);
    }
  }

  /** Which block sits where: system, safety, the optional section with each item's source line and content, then the task and the trimmed text. */
  lemma PromptLayout(userText: string, ctx: Option<VaultContext>)
    ensures var b := PromptBlocks(userText, ctx);
      var n := if HasVaultSection(ctx) then 1 + 2 * |ctx.value.items| else 0;
      && |b| == 4 + n
      && b[0] == SystemBlock && b[1] == SafetyBlock
      && b[|b| - 2] == TaskBlock && b[|b| - 1] == JsString.Trim(userText)
      && (HasVaultSection(ctx) ==>
            && b[2] == VaultHeader
            && forall k :: 0 <= k < |ctx.value.items| ==>
                 b[3 + 2 * k] == SourceLine(ctx.value.items[k]) && b[4 + 2 * k] == ctx.value.items[k].content)
  {
    if HasVaultSection(ctx) {
      SectionAt(SystemBlock, SafetyBlock, VaultHeader, ctx.value.items, TaskBlock, JsString.Trim(userText));
    } else {
      FrameAt(SystemBlock, SafetyBlock, TaskBlock, JsString.Trim(userText));
    }
  }

  /** A joined list of blocks opens with its first two blocks and closes with its last two, separators included. */
  lemma FramedJoinEnds(a: string, b: string, middle: seq<string>, c: string, d: string, sep: string)
    ensures JsString.StartsWith(JsString.Join([a, b] + middle + [c, d], sep), a + sep + b + sep)
    ensures JsString.EndsWith(JsString.Join([a, b] + middle + [c, d], sep), sep + c + sep + d)
  {
    assert [a, b] + middle + [c, d] == [a, b] + (middle + [c, d]);
    JoinOpens(a, b, middle + [c, d], sep);
    JoinCloses([a, b] + middle, c, d, sep);
  }

  lemma JoinOpens(a: string, b: string, rest: seq<string>, sep: string)
    requires rest != []
    ensures JsString.StartsWith(JsString.Join([a, b] + rest, sep), a + sep + b + sep)
  {
    JsString.JoinAppend([a, b], rest, sep);
    assert [a, b][1..] == [b];
    PrefixOf(a + sep + b + sep, JsString.Join(rest, sep));
  }

  lemma JoinCloses(front: seq<string>, c: string, d: string, sep: string)
    requires front != []
    ensures JsString.EndsWith(JsString.Join(front + [c, d], sep), sep + c + sep + d)
  {
    JsString.JoinAppend(front, [c, d], sep);
    assert [c, d][1..] == [d];
    var f := JsString.Join(front, sep);
    SuffixOf(f, sep + c + sep + d);
    assert f + (sep + c + sep + d) == f + sep + (c + sep + d);
  }

  lemma PrefixOf(x: string, y: string)
    ensures JsString.StartsWith(x + y, x)
  {
    assert (x + y)[..|x|] == x;
  }

  lemma SuffixOf(x: string, y: string)
    ensures JsString.EndsWith(x + y, y)
  {
    assert (x + y)[|x|..] == y;
  }

  /** The prompt text opens with the system and safety blocks and closes with the task block and the trimmed user text. */
  lemma PromptText(userText: string, ctx: Option<VaultContext>)
    ensures JsString.StartsWith(Prompt(userText, ctx), SystemBlock + BlockSeparator + SafetyBlock + BlockSeparator)
    ensures JsString.EndsWith(Prompt(userText, ctx), BlockSeparator + TaskBlock + BlockSeparator + JsString.Trim(userText))
  {
    var middle := if HasVaultSection(ctx) then [VaultHeader] + ItemBlocks(ctx.value.items) else [];
    FramedJoinEnds(SystemBlock, SafetyBlock, middle, TaskBlock, JsString.Trim(userText), BlockSeparator);
    assert PromptBlocks(userText, ctx) == [SystemBlock, SafetyBlock] + middle + [TaskBlock, JsString.Trim(userText)];
  }

  /** Without a vault section the prompt is exactly four blocks. */
  lemma PromptWithoutVault(userText: string, ctx: Option<VaultContext>)
    requires !HasVaultSection(ctx)
    ensures Prompt(userText, ctx)
      == SystemBlock + BlockSeparator + SafetyBlock + BlockSeparator + TaskBlock + BlockSeparator + JsString.Trim(userText)
  {
    var t := JsString.Trim(userText);
    assert PromptBlocks(userText, ctx) == [SystemBlock, SafetyBlock, TaskBlock, t];
    JoinFour(SystemBlock, SafetyBlock, TaskBlock, t, BlockSeparator);
  }

  lemma JoinFour(a: string, b: string, c: string, d: string, sep: string)
    ensures JsString.Join([a, b, c, d], sep) == a + sep + b + sep + c + sep + d
  {
    assert [a, b, c, d][1..] == [b, c, d] && [b, c, d][1..] == [c, d] && [c, d][1..] == [d];
    assert JsString.Join([c, d], sep) == c + sep + d;
    assert JsString.Join([b, c, d], sep) == b + sep + (c + sep + d);
    assert JsString.Join([a, b, c, d], sep) == a + sep + (b + sep + (c + sep + d));
  }
}
