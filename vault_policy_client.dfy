/**
 * lib/vaultPolicyClient.ts: the browser-side copy of the vault policy. Resolution
 * posts to the resolve route and falls back to an empty context on any failure;
 * prompt assembly repeats the library's block-by-block construction.
 */
module VaultPolicyClient {
  import opened Wrappers
  import JsString
  import VaultPolicy
  import VaultResolveRoute

  /** Whether the `fetch` call reached the route, or threw before any response. */
  datatype Transport = Delivered | NetworkError

  /** The context returned when the request fails. */
  const EmptyContext := VaultPolicy.VaultContext([], 0, false)

  /**
   * `resolveVaultContext`: posts `{ userId, vaultRefs, budget }`; a non-OK status
   * throws, and the `catch` turns every failure into the empty context.
   */
  method ResolveVaultContext(userId: string, refs: seq<VaultPolicy.VaultRef>, budget: int,
                             transport: Transport, fetched: seq<VaultPolicy.Fetch>)
    returns (c: VaultPolicy.VaultContext)
    requires |fetched| == |refs|
    ensures transport == NetworkError ==> c == EmptyContext
    ensures transport == Delivered && userId == "" ==> c == EmptyContext
    ensures transport == Delivered && userId != "" ==> c == VaultPolicy.Resolve(refs, fetched, budget)
  {
    if transport == NetworkError {
      return EmptyContext;
    }
    var body := VaultResolveRoute.RequestBody(Some(userId), Some(refs), Some(budget));
    var response := VaultResolveRoute.Post(Some(body), fetched);
    match response {
      case Ok(ctx) => c := ctx;
      case BadRequest(_) => c := EmptyContext;
      case ServerError(_) => c := EmptyContext;
    }
  }

  /** The fallback context adds no vault section: the prompt is the one built without a context. */
  lemma FallbackPromptHasNoVault(userText: string)
    ensures !VaultPolicy.HasVaultSection(Some(EmptyContext))
    ensures VaultPolicy.Prompt(userText, Some(EmptyContext)) == VaultPolicy.Prompt(userText, None)
  {
  }

  /** `buildPromptWithVault`, the client copy: it produces the library's prompt for every input. */
  method BuildPromptWithVault(userText: string, vaultContext: Option<VaultPolicy.VaultContext>) returns (prompt: string)
    ensures prompt == VaultPolicy.Prompt(userText, vaultContext)
  {
    var blocks: seq<string> := [];
    blocks := blocks + [VaultPolicy.SystemBlock];
    blocks := blocks + [VaultPolicy.SafetyBlock];
    ghost var section: seq<string> := [];
    if vaultContext.Some? && |vaultContext.value.items| > 0 {
      blocks := blocks + [VaultPolicy.VaultHeader];
      blocks := VaultPolicy.PushItemBlocks(blocks, vaultContext.value.items);
      section := [VaultPolicy.VaultHeader] + VaultPolicy.ItemBlocks(vaultContext.value.items);
    }
    assert blocks == [VaultPolicy.SystemBlock, VaultPolicy.SafetyBlock] + section;
    blocks := blocks + [VaultPolicy.TaskBlock];
    blocks := blocks + [JsString.Trim(userText)];
    assert blocks == VaultPolicy.PromptBlocks(userText, vaultContext);
    prompt := JsString.Join(blocks, "\n\n");
  }
}
