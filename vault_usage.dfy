/**
 * lib/vaultUsage.ts: the audit event recorded when a message used vault
 * context, and the provider a model id belongs to.
 */
module VaultUsage {
  import JsString
  import VaultPolicy

  /** `getProviderFromModel`: a case-sensitive prefix test, first match wins. */
  function GetProviderFromModel(modelId: string): (r: string)
    ensures r == "openai" <==> JsString.StartsWith(modelId, "gpt")
    ensures r == "anthropic" <==>
      !JsString.StartsWith(modelId, "gpt")
      && (JsString.StartsWith(modelId, "claude") || JsString.StartsWith(modelId, "sonnet"))
    ensures r == "google" <==>
      !JsString.StartsWith(modelId, "gpt") && !JsString.StartsWith(modelId, "claude")
      && !JsString.StartsWith(modelId, "sonnet") && JsString.StartsWith(modelId, "gemini")
    ensures r in {"openai", "anthropic", "google", "unknown"}
  {
    if JsString.StartsWith(modelId, "gpt") then "openai"
    else if JsString.StartsWith(modelId, "claude") || JsString.StartsWith(modelId, "sonnet") then "anthropic"
    else if JsString.StartsWith(modelId, "gemini") then "google"
    else "unknown"
  }

  /** Only the prefix decides: whatever follows it does not change the provider. */
  lemma ProviderByPrefix(prefix: string, rest: string)
    requires prefix in {"gpt", "claude", "sonnet", "gemini"}
    ensures GetProviderFromModel(prefix + rest)
         == (if prefix == "gpt" then "openai" else if prefix == "gemini" then "google" else "anthropic")
  {
    var m := prefix + rest;
    assert m[..|prefix|] == prefix;
    assert JsString.StartsWith(m, prefix);
    if prefix == "gpt" {
    } else if prefix == "claude" {
      Differs(m, "gpt", 0);
    } else if prefix == "sonnet" {
      Differs(m, "gpt", 0);
      Differs(m, "claude", 0);
    } else {
      Differs(m, "gpt", 1);
      Differs(m, "claude", 0);
      Differs(m, "sonnet", 0);
    }
  }

  lemma Differs(m: string, p: string, i: nat)
    requires i < |p| && i < |m| && m[i] != p[i]
    ensures !JsString.StartsWith(m, p)
  {
  }

  /** The test is case-sensitive. */
  lemma UpperCaseIsUnknown()
    ensures GetProviderFromModel("GPT-4") == "unknown"
  {
    assert !JsString.StartsWith("GPT-4", "gpt") by { assert "GPT-4"[0] != "gpt"[0]; }
    assert !JsString.StartsWith("GPT-4", "claude") by { assert "GPT-4"[0] != "claude"[0]; }
    assert !JsString.StartsWith("GPT-4", "sonnet") by { assert "GPT-4"[0] != "sonnet"[0]; }
    assert !JsString.StartsWith("GPT-4", "gemini") by { assert "GPT-4"[0] != "gemini"[0]; }
  }

  /** `vaultRefs.map(ref => ref.id)`. */
  function VaultItemIds(refs: seq<VaultPolicy.VaultRef>): (ids: seq<string>)
    ensures |ids| == |refs|
    ensures forall i :: 0 <= i < |refs| ==> ids[i] == refs[i].id
  {
    seq(|refs|, i requires 0 <= i < |refs| => refs[i].id)
  }

  /** The ids of a message's references concatenate like the references. */
  lemma VaultItemIdsAppend(a: seq<VaultPolicy.VaultRef>, b: seq<VaultPolicy.VaultRef>)
    ensures VaultItemIds(a + b) == VaultItemIds(a) + VaultItemIds(b)
  {
  }

  /** The event `logVaultUsage` writes; the timestamp is a parameter. */
  datatype VaultUsageEvent = VaultUsageEvent(
    conversationId: string, messageId: string, vaultItemIds: seq<string>, timestamp: int,
    model: string, provider: string, charCount: int, userId: string)

  function UsageEvent(userId: string, conversationId: string, messageId: string,
                      refs: seq<VaultPolicy.VaultRef>, model: string, charCount: int, timestamp: int): (e: VaultUsageEvent)
    ensures e.vaultItemIds == VaultItemIds(refs) && e.provider == GetProviderFromModel(model)
    ensures e.userId == userId && e.conversationId == conversationId && e.messageId == messageId
    ensures e.model == model && e.charCount == charCount && e.timestamp == timestamp
  {
    VaultUsageEvent(conversationId, messageId, VaultItemIds(refs), timestamp, model, GetProviderFromModel(model), charCount, userId)
  }
}
