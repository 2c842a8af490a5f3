/**
 * app/api/vault/resolve/route.ts: the `POST` handler that validates a request
 * body and runs the budget loop with the truncation written inline.
 */
module VaultResolveRoute {
  import opened Wrappers
  import JsString
  import opened VaultPolicy

  /** The folder note this handler writes under each file (the library writes a different one). */
  const RouteFolderNote := "(File content placeholder)"

  /**
   * The request body's fields: `None` is a missing field; `budget` is `None`
   * when its JSON value is not a number.
   */
  datatype RequestBody = RequestBody(userId: Option<string>, vaultRefs: Option<seq<VaultRef>>, budget: Option<int>)

  datatype Response =
    | BadRequest(error: string)     // status 400
    | ServerError(error: string)    // status 500
    | Ok(context: VaultContext)     // status 200

  /** `!userId || !vaultRefs || typeof budget !== "number"`; an array, even an empty one, is truthy. */
  predicate Rejected(body: RequestBody) {
    !JsString.Truthy(body.userId) || body.vaultRefs.None? || body.budget.None?
  }

  /**
   * `POST`: `body` is `None` when the request body is not JSON (the outer `catch`);
   * `fetched` holds what each reference of an accepted body yields.
   */
  method Post(body: Option<RequestBody>, fetched: seq<Fetch>) returns (res: Response)
    requires body.Some? && body.value.vaultRefs.Some? ==> |fetched| == |body.value.vaultRefs.value|
    ensures body.None? ==> res == ServerError("Internal server error")
    ensures body.Some? && Rejected(body.value) ==> res == BadRequest("Missing required fields")
    ensures body.Some? && !Rejected(body.value) ==>
      res == Ok(Resolve(body.value.vaultRefs.value, fetched, body.value.budget.value))
  {
    if body.None? {
      return ServerError("Internal server error");
    }
    var b := body.value;
    if !JsString.Truthy(b.userId) || b.vaultRefs.None? || b.budget.None? {
      return BadRequest("Missing required fields");
    }
    var context := ResolveInline(b.vaultRefs.value, fetched, b.budget.value);
    res := Ok(context);
  }

  /** The handler's loop over the references, with the truncation written out in place. */
  method ResolveInline(refs: seq<VaultRef>, fetched: seq<Fetch>, budget: int) returns (c: VaultContext)
    requires |fetched| == |refs|
    ensures c == Resolve(refs, fetched, budget)
  {
    var items: seq<Item> := [];
    var totalChars := 0;
    var i := 0;
    while i < |refs|
      invariant 0 <= i <= |refs|
      invariant ResolveFrom(refs[i..], fetched[i..], budget, items, totalChars) == Resolve(refs, fetched, budget)
    {
      if totalChars >= budget {
        break;
      }
      ResolveAdvance(refs, fetched, budget, items, totalChars, i);
      if fetched[i].Threw? {
        i := i + 1;
        continue;
      }
      var content := fetched[i].text;
      if content == "" {
        i := i + 1;
        continue;
      }
      var remainingBudget := budget - totalChars;
      var truncatedContent := if |content| <= remainingBudget then content
        else JsString.Slice(content, 0, remainingBudget - 3) + "...";
      assert truncatedContent == Truncate(content, remainingBudget);
      items := items + [Item(refs[i].name, truncatedContent, |truncatedContent|)];
      totalChars := totalChars + |truncatedContent|;
      i := i + 1;
    }
    c := VaultContext(items, totalChars, totalChars >= budget);
  }

  /**
   * The two folder listings differ, so a folder reference yields different text
   * here and in the library; for a bio or a file reference the contents agree.
   */
  lemma ContentsAgreeOutsideFolders(r: VaultRef, lookup: Lookup)
    ensures r.refType != Folder ==> FetchContent(r, lookup, RouteFolderNote) == FetchContent(r, lookup, LibraryFolderNote)
    ensures r.refType == Folder && lookup.Lookup? && lookup.folderFileNames != [] ==>
      FetchContent(r, lookup, RouteFolderNote) != FetchContent(r, lookup, LibraryFolderNote)
  {
    if r.refType == Folder && lookup.Lookup? && lookup.folderFileNames != [] {
      var names := lookup.folderFileNames;
      var a := FolderListing(names, RouteFolderNote);
      var b := FolderListing(names, LibraryFolderNote);
      FolderListingPrefix(names, RouteFolderNote);
      FolderListingPrefix(names, LibraryFolderNote);
      var k := |"File: " + names[0] + "\n"|;
      var pa, pb := "File: " + names[0] + "\n" + RouteFolderNote, "File: " + names[0] + "\n" + LibraryFolderNote;
      assert a[k + 14] == pa[k + 14] == RouteFolderNote[14] == 'p';
      assert b[k + 14] == pb[k + 14] == LibraryFolderNote[14] == 'w';
    }
  }

  lemma FolderListingPrefix(names: seq<string>, note: string)
    requires names != []
    ensures JsString.StartsWith(FolderListing(names, note), "File: " + names[0] + "\n" + note)
  {
    var lines := seq(|names|, i requires 0 <= i < |names| => "File: " + names[i] + "\n" + note);
    if |lines| > 1 {
      assert JsString.Join(lines, "\n\n") == lines[0] + ("\n\n" + JsString.Join(lines[1..], "\n\n"));
    }
  }
}
