/** Which wire-protocol family a Copilot model id belongs to. */
module ModelFamily {
  import opened Strings

  datatype Family = OpenAI | Gemini | Claude

  /** `get_model_family`: a case-insensitive substring test, "claude"
      winning over "gemini", everything else being OpenAI-style. */
  function GetModelFamily(modelId: string): (f: Family)
    ensures f == Claude <==> Contains(Lower(modelId), "claude")
    ensures f == Gemini <==> !Contains(Lower(modelId), "claude") && Contains(Lower(modelId), "gemini")
    ensures f == OpenAI <==> !Contains(Lower(modelId), "claude") && !Contains(Lower(modelId), "gemini")
  {
    var mid := Lower(modelId);
    if Contains(mid, "claude") then Claude
    else if Contains(mid, "gemini") then Gemini
    else OpenAI
  }

  lemma LowerIdempotent(s: string)
    ensures Lower(Lower(s)) == Lower(s)
  {
    assert forall i :: 0 <= i < |s| ==> LowerChar(LowerChar(s[i])) == LowerChar(s[i]);
  }

  /** The family does not depend on letter case: two ids that differ only
      in the case of ASCII letters belong to the same family. */
  lemma FamilyIgnoresCase(a: string, b: string)
    requires Lower(a) == Lower(b)
    ensures GetModelFamily(a) == GetModelFamily(b)
  {
  }

  lemma FamilyOfLowered(id: string)
    ensures GetModelFamily(Lower(id)) == GetModelFamily(id)
  {
    LowerIdempotent(id);
    FamilyIgnoresCase(Lower(id), id);
  }

  lemma ClaudeExample()
    ensures GetModelFamily("Claude-Opus-4.5") == Claude
  {
    var id := "Claude-Opus-4.5";
    assert Lower(id) == "claude-opus-4.5";
    ContainsInfix("", "claude", "-opus-4.5");
    assert "claude-opus-4.5" == "" + "claude" + "-opus-4.5";
  }

  lemma GeminiLower()
    ensures Lower("gemini-2.5-pro") == "gemini-2.5-pro"
  {
    LowerOfLowercase("gemini-2.5-pro");
  }

  lemma GeminiNoClaude()
    ensures !Contains("gemini-2.5-pro", "claude")
  {
    assert 'c' !in "gemini-2.5-pro";
    NotContainsMissingLetter("gemini-2.5-pro", "claude", 0);
  }

  lemma GeminiHasGemini()
    ensures Contains("gemini-2.5-pro", "gemini")
  {
    ContainsInfix("", "gemini", "-2.5-pro");
    assert "gemini-2.5-pro" == "" + "gemini" + "-2.5-pro";
  }

  lemma GeminiExample()
    ensures GetModelFamily("gemini-2.5-pro") == Gemini
  {
    GeminiLower();
    GeminiNoClaude();
    GeminiHasGemini();
  }

  lemma OpenAIExample()
    ensures GetModelFamily("gpt-4.1") == OpenAI
  {
    var id := "gpt-4.1";
    LowerOfLowercase(id);
    assert 'c' !in id && 'e' !in id;
    NotContainsMissingLetter(id, "claude", 0);
    NotContainsMissingLetter(id, "gemini", 1);
  }
}
